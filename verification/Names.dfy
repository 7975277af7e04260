/** The storage library's names: segment grammar, the parsers with the reason each reports, the
    addresses they build, and the byte order listings are sorted in. */
module Names {
  import opened Basics

  const MAX_NAME_BYTES: nat := 128
  const MAX_SEGMENT_BYTES: nat := 64

  datatype NameError = TooLong | SegmentTooLong | EmptySegment | BadStart | BadCharacter

  predicate LowerOrDigit(c: char) {
    'a' <= c <= 'z' || '0' <= c <= '9'
  }

  predicate Mark(c: char) {
    c == '.' || c == '_' || c == '-'
  }

  /** One segment's grammar; the length of an over-long segment is reported before its characters. */
  function Segment(s: string): Result<(), NameError> {
    if s == "" then Err(EmptySegment)
    else if |s| > MAX_SEGMENT_BYTES then Err(SegmentTooLong)
    else if !LowerOrDigit(s[0]) then Err(if Mark(s[0]) then BadStart else BadCharacter)
    else if forall i :: 1 <= i < |s| ==> LowerOrDigit(s[i]) || Mark(s[i]) then Ok(())
    else Err(BadCharacter)
  }

  /** Where `sep` first occurs, or the length. */
  function FirstAt(s: string, sep: char): (i: nat)
    ensures i <= |s| && (i < |s| ==> s[i] == sep) && forall j :: 0 <= j < i ==> s[j] != sep
  {
    if s == "" || s[0] == sep then 0 else 1 + FirstAt(s[1..], sep)
  }

  /** `str::split`: the pieces between separators, one more than there are separators. */
  function Split(s: string, sep: char): (pieces: seq<string>)
    ensures |pieces| > 0
    decreases |s|
  {
    var i := FirstAt(s, sep);
    if i == |s| then [s] else [s[..i]] + Split(s[i + 1..], sep)
  }

  function Join(pieces: seq<string>, sep: char): string
    requires |pieces| > 0
  {
    if |pieces| == 1 then pieces[0] else pieces[0] + [sep] + Join(pieces[1..], sep)
  }

  /** The first refusal among the pieces, in order. */
  function EachSegment(pieces: seq<string>): Result<(), NameError> {
    if pieces == [] then Ok(())
    else
      match Segment(pieces[0])
      case Err(reason) => Err(reason)
      case Ok(_) => EachSegment(pieces[1..])
  }

  function ParseName(s: string): Result<(), NameError> {
    if |s| > MAX_NAME_BYTES then Err(TooLong) else EachSegment(Split(s, '/'))
  }

  function ParseScopeName(s: string): Result<(), NameError> {
    if |s| > MAX_SEGMENT_BYTES then Err(TooLong) else Segment(s)
  }

  type SecretName = s: string | ParseName(s).Ok? witness OneLetter()
  type ScopeName = s: string | ParseScopeName(s).Ok? witness "default"

  function OneLetter(): (s: string)
    ensures ParseName(s).Ok?
  {
    assert Split("a", '/') == ["a"];
    assert Segment("a").Ok? && EachSegment([]).Ok?;
    "a"
  }

  const DEFAULT: ScopeName := "default"

  // ---- What the parsers accept, said without splitting ----

  lemma {:induction false} SplitJoins(s: string, sep: char)
    ensures Join(Split(s, sep), sep) == s
    decreases |s|
  {
    var i := FirstAt(s, sep);
    if i < |s| {
      SplitJoins(s[i + 1..], sep);
      var rest := Split(s[i + 1..], sep);
      assert ([s[..i]] + rest)[1..] == rest;
      assert s == s[..i] + [sep] + s[i + 1..];
    }
  }

  /** `[from, to)` is a whole piece of the text: it holds no separator and is bounded by separators
      or the ends. */
  predicate Piece(s: string, sep: char, from: nat, to: nat) {
    && from <= to <= |s|
    && (from == 0 || s[from - 1] == sep) && (to == |s| || s[to] == sep)
    && forall i :: from <= i < to ==> s[i] != sep
  }

  lemma PieceOfRest(s: string, sep: char, cut: nat, from: nat, to: nat)
    requires cut < |s| && s[cut] == sep
    ensures Piece(s[cut + 1..], sep, from, to) <==> Piece(s, sep, cut + 1 + from, cut + 1 + to)
  {
    var rest := s[cut + 1..];
    if Piece(s, sep, cut + 1 + from, cut + 1 + to) {
      forall i | from <= i < to
        ensures rest[i] != sep
      {
        assert rest[i] == s[cut + 1 + i];
      }
    }
    if Piece(rest, sep, from, to) {
      forall i | cut + 1 + from <= i < cut + 1 + to
        ensures s[i] != sep
      {
        assert rest[i - cut - 1] == s[i];
      }
    }
  }

  /** A piece that starts at or before the first separator is the one before it. */
  lemma FirstPiece(s: string, sep: char, from: nat, to: nat)
    requires Piece(s, sep, from, to) && from <= FirstAt(s, sep)
    ensures from == 0 && to == FirstAt(s, sep)
  {
  }

  ghost predicate AllPieces(s: string) {
    forall from: nat, to: nat | Piece(s, '/', from, to) :: Segment(s[from..to]).Ok?
  }

  lemma PieceOfRestPasses(s: string, cut: nat, from: nat, to: nat)
    requires cut < |s| && s[cut] == '/' && AllPieces(s) && Piece(s[cut + 1..], '/', from, to)
    ensures Segment(s[cut + 1..][from..to]).Ok?
  {
    hide Segment, Piece, AllPieces;
    RestPiece(s, '/', cut, from, to);
    PassingPiece(s, cut + 1 + from, cut + 1 + to);
  }

  lemma LaterPiecePasses(s: string, cut: nat, from: nat, to: nat)
    requires cut < |s| && s[cut] == '/' && Piece(s, '/', from, to) && from > cut && AllPieces(s[cut + 1..])
    ensures Segment(s[from..to]).Ok?
  {
    hide Segment, AllPieces;
    RestPiece(s, '/', cut, from - cut - 1, to - cut - 1);
    hide Piece;
    PassingPiece(s[cut + 1..], from - cut - 1, to - cut - 1);
  }

  lemma PassingPiece(s: string, from: nat, to: nat)
    requires AllPieces(s) && Piece(s, '/', from, to)
    ensures Segment(s[from..to]).Ok?
  {
    hide Segment;
  }

  lemma PiecePasses(s: string, from: nat, to: nat)
    requires FirstAt(s, '/') < |s| && Piece(s, '/', from, to)
    requires var i := FirstAt(s, '/'); Segment(s[..i]).Ok? && AllPieces(s[i + 1..])
    ensures Segment(s[from..to]).Ok?
  {
    hide Segment, AllPieces;
    var i := FirstAt(s, '/');
    if from <= i {
      FirstPiece(s, '/', from, to);
      assert s[0..i] == s[..i];
    } else {
      LaterPiecePasses(s, i, from, to);
    }
  }

  lemma PiecesFromAll(s: string)
    requires forall from: nat, to: nat | Piece(s, '/', from, to) :: Segment(s[from..to]).Ok?
    ensures AllPieces(s)
  {
    hide Segment, Piece;
  }

  lemma CutPieces(s: string)
    requires FirstAt(s, '/') < |s| && AllPieces(s)
    ensures var i := FirstAt(s, '/'); Segment(s[..i]).Ok? && AllPieces(s[i + 1..])
  {
    hide Segment, AllPieces;
    var i := FirstAt(s, '/');
    assert Piece(s, '/', 0, i) && s[0..i] == s[..i];
    PassingPiece(s, 0, i);
    hide Piece;
    var rest := s[i + 1..];
    forall from: nat, to: nat | Piece(rest, '/', from, to)
      ensures Segment(rest[from..to]).Ok?
    {
      PieceOfRestPasses(s, i, from, to);
    }
    PiecesFromAll(rest);
  }

  lemma UncutPieces(s: string)
    requires FirstAt(s, '/') < |s|
    requires var i := FirstAt(s, '/'); Segment(s[..i]).Ok? && AllPieces(s[i + 1..])
    ensures AllPieces(s)
  {
    hide Segment, AllPieces;
    forall from: nat, to: nat | Piece(s, '/', from, to)
      ensures Segment(s[from..to]).Ok?
    {
      PiecePasses(s, from, to);
    }
    PiecesFromAll(s);
  }

  lemma AllPiecesCut(s: string)
    requires FirstAt(s, '/') < |s|
    ensures var i := FirstAt(s, '/'); AllPieces(s) <==> Segment(s[..i]).Ok? && AllPieces(s[i + 1..])
  {
    hide Segment, AllPieces, FirstAt;
    var i := FirstAt(s, '/');
    if AllPieces(s) {
      CutPieces(s);
    } else if Segment(s[..i]).Ok? && AllPieces(s[i + 1..]) {
      UncutPieces(s);
    }
  }

  lemma OnePiece(s: string)
    requires FirstAt(s, '/') == |s|
    ensures AllPieces(s) <==> Segment(s).Ok?
  {
    assert Piece(s, '/', 0, |s|) && s[0..|s|] == s;
    hide Segment;
    forall from: nat, to: nat | Piece(s, '/', from, to)
      ensures s[from..to] == s
    {
      FirstPiece(s, '/', from, to);
    }
  }

  /** A name passes exactly when every whole piece of it is a segment. */
  lemma {:induction false} EachSegmentIff(s: string)
    ensures EachSegment(Split(s, '/')).Ok? <==> AllPieces(s)
    decreases |s|
  {
    var i := FirstAt(s, '/');
    assert s[..|s|] == s;
    hide Segment, AllPieces;
    if i == |s| {
      OnePiece(s);
      EachUnfolds(s, []);
      assert [s] + [] == [s];
    } else {
      EachSegmentIff(s[i + 1..]);
      AllPiecesCut(s);
      EachUnfolds(s[..i], Split(s[i + 1..], '/'));
    }
  }

  lemma EachUnfolds(first: string, pieces: seq<string>)
    ensures EachSegment([first] + pieces).Ok? <==> Segment(first).Ok? && EachSegment(pieces).Ok?
  {
    assert ([first] + pieces)[1..] == pieces;
  }

  lemma RestPiece(s: string, sep: char, cut: nat, from: nat, to: nat)
    requires cut < |s| && s[cut] == sep
    requires Piece(s[cut + 1..], sep, from, to) || Piece(s, sep, cut + 1 + from, cut + 1 + to)
    ensures Piece(s, sep, cut + 1 + from, cut + 1 + to) && Piece(s[cut + 1..], sep, from, to)
    ensures from <= to <= |s| - cut - 1 && s[cut + 1..][from..to] == s[cut + 1 + from..cut + 1 + to]
  {
    PieceOfRest(s, sep, cut, from, to);
  }

  // ---- What a segment is, said without the parser ----

  const ALPHANUMERIC: set<char> := {
    'a', 'b', 'c', 'd', 'e', 'f', 'g', 'h', 'i', 'j', 'k', 'l', 'm',
    'n', 'o', 'p', 'q', 'r', 's', 't', 'u', 'v', 'w', 'x', 'y', 'z',
    '0', '1', '2', '3', '4', '5', '6', '7', '8', '9'}
  const MARKS: set<char> := {'.', '_', '-'}

  /** `[a-z0-9][a-z0-9._-]*`, of 1 to 64 bytes. */
  predicate SegmentText(s: string) {
    && 1 <= |s| <= 64 && s[0] in ALPHANUMERIC
    && forall i :: 0 <= i < |s| ==> s[i] in ALPHANUMERIC || s[i] in MARKS
  }

  /** What makes a text no segment, by the reason it is refused for. */
  predicate RefusedAs(s: string, reason: NameError) {
    match reason
    case TooLong => false
    case EmptySegment => s == ""
    case SegmentTooLong => |s| > 64
    case BadStart => 1 <= |s| <= 64 && s[0] in MARKS
    case BadCharacter =>
      && 1 <= |s| <= 64 && s[0] !in MARKS
      && exists i :: 0 <= i < |s| && s[i] !in ALPHANUMERIC && s[i] !in MARKS
  }

  lemma InAlphanumeric(c: char)
    ensures c in ALPHANUMERIC <==> LowerOrDigit(c)
  {
  }

  /** A segment is accepted exactly when it is such a text, and refused for each reason exactly when
      that is what is wrong with it. */
  lemma SegmentIff(s: string)
    ensures Segment(s).Ok? <==> SegmentText(s)
    ensures forall reason :: Segment(s) == Err(reason) <==> RefusedAs(s, reason)
  {
    SameAlphabet();
    hide ALPHANUMERIC, MARKS, LowerOrDigit, Mark;
  }

  lemma SameAlphabet()
    ensures forall c :: c in ALPHANUMERIC <==> LowerOrDigit(c)
    ensures forall c :: c in MARKS <==> Mark(c)
    ensures forall c :: !(LowerOrDigit(c) && Mark(c))
  {
    forall c: char
      ensures c in ALPHANUMERIC <==> LowerOrDigit(c)
    {
      InAlphanumeric(c);
    }
  }

  /** A scope name is one segment; its length comes first and is the name's. */
  lemma ScopeNameIff(s: string)
    ensures ParseScopeName(s).Ok? <==> SegmentText(s)
    ensures forall reason ::
      ParseScopeName(s) == Err(reason) <==> if reason == TooLong then |s| > 64 else |s| <= 64 && RefusedAs(s, reason)
  {
    SegmentIff(s);
    hide Segment;
  }

  /** The first piece of the text that is no segment, refused for the reason. */
  ghost predicate FirstBad(s: string, reason: NameError, from: nat, to: nat) {
    && Piece(s, '/', from, to) && Segment(s[from..to]) == Err(reason)
    && forall f: nat, t: nat | Piece(s, '/', f, t) && f < from :: Segment(s[f..t]).Ok?
  }

  lemma EachRefusal(first: string, pieces: seq<string>)
    ensures EachSegment([first] + pieces) == if Segment(first).Ok? then EachSegment(pieces) else Err(Segment(first).error)
  {
    assert ([first] + pieces)[1..] == pieces;
  }

  lemma EarlierPasses(s: string, reason: NameError, from: nat, to: nat, f: nat, t: nat)
    requires FirstBad(s, reason, from, to) && Piece(s, '/', f, t) && f < from
    ensures Segment(s[f..t]).Ok?
  {
    hide Segment;
  }

  lemma EarlierInRest(s: string, cut: nat, reason: NameError, from: nat, to: nat, f: nat, t: nat)
    requires FirstAt(s, '/') == cut < |s| && Segment(s[..cut]).Ok? && FirstBad(s[cut + 1..], reason, from, to)
    requires Piece(s, '/', f, t) && f < cut + 1 + from
    ensures Segment(s[f..t]).Ok?
  {
    hide Segment, FirstBad, Piece, FirstAt;
    if f <= cut {
      FirstPiece(s, '/', f, t);
      assert s[0..cut] == s[..cut];
    } else {
      PiecesInside(s);
      RestPiece(s, '/', cut, f - cut - 1, t - cut - 1);
      EarlierPasses(s[cut + 1..], reason, from, to, f - cut - 1, t - cut - 1);
    }
  }

  lemma LaterFirstBad(s: string, cut: nat, reason: NameError, from: nat, to: nat)
    requires FirstAt(s, '/') == cut < |s| && Segment(s[..cut]).Ok? && FirstBad(s[cut + 1..], reason, from, to)
    ensures FirstBad(s, reason, cut + 1 + from, cut + 1 + to)
  {
    hide Segment, Piece, FirstAt;
    RestPiece(s, '/', cut, from, to);
    PiecesInside(s);
    forall f: nat, t: nat | Piece(s, '/', f, t) && f < cut + 1 + from
      ensures Segment(s[f..t]).Ok?
    {
      EarlierInRest(s, cut, reason, from, to, f, t);
    }
  }

  lemma FirstIsBad(s: string)
    requires Segment(s[..FirstAt(s, '/')]).Err?
    ensures FirstBad(s, Segment(s[..FirstAt(s, '/')]).error, 0, FirstAt(s, '/'))
  {
    hide Segment;
    assert s[0..FirstAt(s, '/')] == s[..FirstAt(s, '/')];
  }

  lemma {:induction false} RefusalIsFirstBad(s: string) returns (from: nat, to: nat)
    requires EachSegment(Split(s, '/')).Err?
    ensures FirstBad(s, EachSegment(Split(s, '/')).error, from, to)
    decreases |s|
  {
    hide Segment, FirstBad;
    var i := FirstAt(s, '/');
    from, to := 0, i;
    assert s[..|s|] == s;
    EachRefusal(s[..i], if i == |s| then [] else Split(s[i + 1..], '/'));
    assert [s] + [] == [s];
    if Segment(s[..i]).Ok? {
      from, to := RefusalIsFirstBad(s[i + 1..]);
      LaterFirstBad(s, i, EachSegment(Split(s[i + 1..], '/')).error, from, to);
      from, to := i + 1 + from, i + 1 + to;
    } else {
      FirstIsBad(s);
    }
  }

  lemma OneFirstBad(s: string, reason: NameError, from: nat, to: nat, reason': NameError, from': nat, to': nat)
    requires FirstBad(s, reason, from, to) && FirstBad(s, reason', from', to')
    ensures reason == reason'
  {
    hide Segment;
  }

  ghost predicate SegmentsAllText(s: string) {
    forall from: nat, to: nat | Piece(s, '/', from, to) :: SegmentText(s[from..to])
  }

  /** The first piece that is no segment text, with what is wrong with it. */
  ghost predicate FirstRefused(s: string, reason: NameError, from: nat, to: nat) {
    && Piece(s, '/', from, to) && RefusedAs(s[from..to], reason)
    && forall f: nat, t: nat | Piece(s, '/', f, t) && f < from :: SegmentText(s[f..t])
  }

  lemma PiecesByText(s: string)
    ensures AllPieces(s) <==> SegmentsAllText(s)
    ensures forall reason, from: nat, to: nat :: FirstBad(s, reason, from, to) <==> FirstRefused(s, reason, from, to)
  {
    hide Segment, SegmentText, RefusedAs, Piece;
    PiecesInside(s);
    forall from: nat, to: nat | Piece(s, '/', from, to)
      ensures Segment(s[from..to]).Ok? <==> SegmentText(s[from..to])
      ensures forall reason :: Segment(s[from..to]) == Err(reason) <==> RefusedAs(s[from..to], reason)
    {
      SegmentIff(s[from..to]);
    }
  }

  lemma PiecesInside(s: string)
    ensures forall from: nat, to: nat | Piece(s, '/', from, to) :: from <= to <= |s|
  {
  }

  /** What a secret name is: at most 128 bytes, and every piece between slashes a segment. Its
      length is the first thing reported, whatever else is wrong; then what is wrong with the first
      piece that is none. */
  lemma NameIff(s: string)
    ensures ParseName(s).Ok? <==> |s| <= 128 && SegmentsAllText(s)
    ensures ParseName(s) == Err(TooLong) <==> |s| > 128
    ensures forall reason | reason != TooLong ::
      ParseName(s) == Err(reason) <==> |s| <= 128 && exists from: nat, to: nat :: FirstRefused(s, reason, from, to)
  {
    hide Segment, Split, AllPieces, SegmentsAllText, FirstBad, FirstRefused;
    EachSegmentIff(s);
    PiecesByText(s);
    var result := EachSegment(Split(s, '/'));
    NeverTooLong(Split(s, '/'));
    if result.Err? {
      var from, to := RefusalIsFirstBad(s);
      assert FirstRefused(s, result.error, from, to);
      forall reason, f: nat, t: nat | FirstRefused(s, reason, f, t)
        ensures reason == result.error
      {
        OneFirstBad(s, reason, f, t, result.error, from, to);
      }
    } else {
      AllPiecesNoneBad(s);
    }
  }

  lemma AllPiecesNoneBad(s: string)
    requires AllPieces(s)
    ensures forall reason, from: nat, to: nat :: !FirstBad(s, reason, from, to)
  {
    hide Segment, Piece;
  }

  lemma {:induction false} NeverTooLong(pieces: seq<string>)
    ensures EachSegment(pieces) != Err(TooLong)
  {
    if pieces != [] {
      NeverTooLong(pieces[1..]);
    }
  }

  predicate NameChar(c: char) {
    LowerOrDigit(c) || Mark(c)
  }

  /** A scope name is one plain segment: no slash and no NUL. */
  lemma ScopeNamePlain(s: ScopeName)
    ensures 0 < |s| <= MAX_SEGMENT_BYTES && (forall i :: 0 <= i < |s| ==> NameChar(s[i]))
    ensures !Contains(s, '/') && !Contains(s, '\0')
  {
  }

  /** A secret name is plain text with slashes. */
  lemma SecretNamePlain(s: SecretName)
    ensures 0 < |s| <= MAX_NAME_BYTES && forall i :: 0 <= i < |s| ==> NameChar(s[i]) || s[i] == '/'
    ensures !Contains(s, '\0')
  {
    EachPlain(s);
    assert Split("", '/') == [""];
  }

  lemma {:induction false} EachPlain(s: string)
    requires EachSegment(Split(s, '/')).Ok?
    ensures forall i :: 0 <= i < |s| ==> NameChar(s[i]) || s[i] == '/'
    decreases |s|
  {
    var i := FirstAt(s, '/');
    if i == |s| {
    } else {
      var rest := s[i + 1..];
      assert ([s[..i]] + Split(rest, '/'))[1..] == Split(rest, '/');
      EachPlain(rest);
      forall j | 0 <= j < |s|
        ensures NameChar(s[j]) || s[j] == '/'
      {
        if j < i {
          assert s[j] == s[..i][j];
        } else if j > i {
          assert s[j] == rest[j - i - 1];
        }
      }
    }
  }

  // ---- Scopes and addresses ----

  datatype Scope = Scope(tenant: ScopeName, namespace: ScopeName, user: ScopeName)

  datatype NamespaceKey = NamespaceKey(tenant: ScopeName, namespace: ScopeName)

  datatype Address = Address(scope: Scope, name: SecretName)

  datatype Part = TenantPart | NamespacePart | UserPart | NamePart | NewNamePart

  datatype AddressError = AddressError(part: Part, reason: NameError)

  const LOCAL: Scope := Scope(DEFAULT, DEFAULT, DEFAULT)

  function KeyOf(scope: Scope): NamespaceKey {
    NamespaceKey(scope.tenant, scope.namespace)
  }

  /** The total length of the name first, then the tenant, namespace, user and name grammar. */
  function ParseAddress(tenant: string, namespace: string, user: string, name: string): Result<Address, AddressError> {
    if |name| > MAX_NAME_BYTES then Err(AddressError(NamePart, TooLong))
    else if ParseScopeName(tenant).Err? then Err(AddressError(TenantPart, ParseScopeName(tenant).error))
    else if ParseScopeName(namespace).Err? then Err(AddressError(NamespacePart, ParseScopeName(namespace).error))
    else if ParseScopeName(user).Err? then Err(AddressError(UserPart, ParseScopeName(user).error))
    else if ParseName(name).Err? then Err(AddressError(NamePart, ParseName(name).error))
    else Ok(Address(Scope(tenant, namespace, user), name))
  }

  /** Both total lengths before either grammar, and the new name's grammar last. */
  function ParseRename(tenant: string, namespace: string, user: string, name: string, newName: string)
    : Result<(Address, SecretName), AddressError>
  {
    if |name| > MAX_NAME_BYTES then Err(AddressError(NamePart, TooLong))
    else if |newName| > MAX_NAME_BYTES then Err(AddressError(NewNamePart, TooLong))
    else
      match ParseAddress(tenant, namespace, user, name)
      case Err(error) => Err(error)
      case Ok(address) =>
        if ParseName(newName).Err? then Err(AddressError(NewNamePart, ParseName(newName).error))
        else Ok((address, newName))
  }

  predicate ScopeParses(tenant: string, namespace: string, user: string) {
    ParseScopeName(tenant).Ok? && ParseScopeName(namespace).Ok? && ParseScopeName(user).Ok?
  }

  /** An address parses exactly when its four parts do; an over-long name is refused before anything else
      is looked at, and otherwise the first part that is wrong is, for its own reason. */
  lemma ParseAddressMeans(tenant: string, namespace: string, user: string, name: string)
    ensures var answer := ParseAddress(tenant, namespace, user, name);
            if |name| > 128 then answer == Err(AddressError(NamePart, TooLong))
            else if ParseScopeName(tenant).Err? then answer == Err(AddressError(TenantPart, ParseScopeName(tenant).error))
            else if ParseScopeName(namespace).Err? then answer == Err(AddressError(NamespacePart, ParseScopeName(namespace).error))
            else if ParseScopeName(user).Err? then answer == Err(AddressError(UserPart, ParseScopeName(user).error))
            else if ParseName(name).Err? then answer == Err(AddressError(NamePart, ParseName(name).error))
            else answer.Ok? && answer.value.scope.tenant == tenant && answer.value.scope.namespace == namespace
                 && answer.value.scope.user == user && answer.value.name == name
  {
  }

  /** A rename parses exactly when its five parts do, as two addresses in one scope; a refusal names
      the first part that is wrong, for its own reason; and an over-long name is the refusal whatever
      else is wrong. */
  lemma ParseRenameMeans(tenant: string, namespace: string, user: string, name: string, newName: string)
    ensures match ParseRename(tenant, namespace, user, name, newName)
            case Ok((address, to)) =>
              && ParseAddress(tenant, namespace, user, name) == Ok(address)
              && ParseAddress(tenant, namespace, user, newName) == Ok(Address(address.scope, to))
            case Err(AddressError(part, reason)) =>
              && (match part
                  case TenantPart => ParseScopeName(tenant) == Err(reason)
                  case NamespacePart => ParseScopeName(tenant).Ok? && ParseScopeName(namespace) == Err(reason)
                  case UserPart => ParseScopeName(tenant).Ok? && ParseScopeName(namespace).Ok? && ParseScopeName(user) == Err(reason)
                  case NamePart => ParseName(name) == Err(reason)
                  case NewNamePart => ParseName(newName) == Err(reason))
              && (|name| > MAX_NAME_BYTES || |newName| > MAX_NAME_BYTES <==> reason == TooLong && (part == NamePart || part == NewNamePart))
              && (part == NamePart && |name| <= MAX_NAME_BYTES ==> ScopeParses(tenant, namespace, user))
              && (part == NewNamePart && |newName| <= MAX_NAME_BYTES ==> ScopeParses(tenant, namespace, user) && ParseName(name).Ok?)
    ensures ParseRename(tenant, namespace, user, name, newName).Ok? <==>
      ScopeParses(tenant, namespace, user) && ParseName(name).Ok? && ParseName(newName).Ok?
    ensures |name| > 128 ==> ParseRename(tenant, namespace, user, name, newName) == Err(AddressError(NamePart, TooLong))
    ensures |name| <= 128 < |newName| ==> ParseRename(tenant, namespace, user, name, newName) == Err(AddressError(NewNamePart, TooLong))
  {
    NameIff(name);
    NameIff(newName);
    hide EachSegment, Segment;
  }

  // ---- The order listings are sorted in ----

  /** Byte order of texts. */
  predicate Before(a: string, b: string) {
    b != "" && (a == "" || a[0] < b[0] || (a[0] == b[0] && Before(a[1..], b[1..])))
  }

  /** The first text is a proper start of the second, or has the lesser byte where they first differ. */
  lemma {:induction false} BeforeIff(a: string, b: string)
    ensures Before(a, b) <==>
      exists i :: 0 <= i <= |a| && i < |b| && a[..i] == b[..i] && (i == |a| || a[i] < b[i])
  {
    if a != "" && b != "" && a[0] == b[0] {
      BeforeIff(a[1..], b[1..]);
      var x, y := a[1..], b[1..];
      if Before(x, y) {
        var i :| 0 <= i <= |x| && i < |y| && x[..i] == y[..i] && (i == |x| || x[i] < y[i]);
        assert a[..i + 1] == [a[0]] + x[..i] && b[..i + 1] == [b[0]] + y[..i];
      }
      if i :| 0 <= i <= |a| && i < |b| && a[..i] == b[..i] && (i == |a| || a[i] < b[i]) {
        assert i > 0;
        assert x[..i - 1] == a[..i][1..] && y[..i - 1] == b[..i][1..];
        assert 0 <= i - 1 <= |x| && i - 1 < |y| && (i - 1 == |x| || x[i - 1] < y[i - 1]);
      }
    } else if b != "" {
      assert a[..0] == b[..0];
      forall i | 0 < i <= |a| && i < |b|
        ensures a[..i] != b[..i]
      {
        assert a[..i][0] == a[0] && b[..i][0] == b[0];
      }
    }
  }

  lemma {:induction false} BeforeIsStrict(a: string, b: string, c: string)
    ensures !Before(a, a)
    ensures Before(a, b) && Before(b, c) ==> Before(a, c)
    ensures a == b || Before(a, b) || Before(b, a)
  {
    if a != "" && b != "" && a[0] == b[0] {
      BeforeIsStrict(a[1..], b[1..], if c == "" then "" else c[1..]);
      assert a == [a[0]] + a[1..] && b == [b[0]] + b[1..];
    } else if a != "" {
      BeforeIsStrict(a[1..], "", "");
    }
  }

  lemma {:induction false} LeastIs(s: set<string>) returns (a: string)
    requires s != {}
    ensures a in s && forall b | b in s :: a == b || Before(a, b)
  {
    hide Before;
    var x :| x in s;
    var rest := s - {x};
    a := x;
    if rest != {} {
      var least := LeastIs(rest);
      BeforeIsStrict(least, x, "");
      a := if Before(x, least) then x else least;
      forall b | b in s
        ensures a == b || Before(a, b)
      {
        BeforeIsStrict(x, least, b);
        assert b == x || b in rest;
      }
    } else {
      assert forall b | b in s :: b == x || b in rest;
    }
  }

  lemma LeastText(s: set<string>)
    requires s != {}
    ensures exists a :: a in s && forall b | b in s :: a == b || Before(a, b)
  {
    hide Before;
    var a := LeastIs(s);
  }
}
