/** W3C `tracestate` parsing and normalisation. A string is the sequence of its bytes, which is all
    the parser looks at; a byte outside ASCII is never part of a valid key or value. */
module TraceStateModel {
  import opened Prelude
  import opened Strings

  const MAX_MEMBERS: nat := 32
  const MAX_LEN: nat := 512

  datatype Member = Member(key: string, value: string)

  predicate IsOws(c: char) {
    c == ' ' || c == '\t'
  }

  predicate AllOws(s: string) {
    forall i :: 0 <= i < |s| ==> IsOws(s[i])
  }

  function TrimOws(s: string): string {
    Trim(s, IsOws)
  }

  predicate IsLcalpha(c: char) {
    'a' <= c <= 'z'
  }

  predicate IsDigit(c: char) {
    '0' <= c <= '9'
  }

  predicate IsKeyChar(c: char) {
    IsLcalpha(c) || IsDigit(c) || c == '_' || c == '-' || c == '*' || c == '/'
  }

  predicate AllKeyChars(s: string) {
    forall i :: 0 <= i < |s| ==> IsKeyChar(s[i])
  }

  predicate IsSimpleKey(s: string) {
    0 < |s| <= 256 && IsLcalpha(s[0]) && AllKeyChars(s)
  }

  predicate IsTenantId(s: string) {
    0 < |s| <= 241 && (IsLcalpha(s[0]) || IsDigit(s[0])) && AllKeyChars(s)
  }

  predicate IsSystemId(s: string) {
    0 < |s| <= 14 && IsLcalpha(s[0]) && AllKeyChars(s)
  }

  predicate IsValidKey(s: string) {
    match SplitOnce(s, '@')
    case None => IsSimpleKey(s)
    case Some(parts) => '@' !in parts.1 && IsTenantId(parts.0) && IsSystemId(parts.1)
  }

  predicate IsValueChar(c: char) {
    ' ' <= c <= '~' && c != ',' && c != '='
  }

  predicate IsValidValue(s: string) {
    0 < |s| <= 256 && (forall i :: 0 <= i < |s| ==> IsValueChar(s[i])) && s[|s| - 1] != ' '
  }

  datatype Parsed = Skip | Bad | Good(member: Member)

  /** One list member: blank, malformed, or a valid pair. */
  function ParseMember(text: string): Parsed {
    var trimmed := TrimOws(text);
    if trimmed == "" then Skip
    else match SplitOnce(trimmed, '=')
      case None => Bad
      case Some(parts) =>
        var m := Member(TrimOws(parts.0), TrimOws(parts.1));
        if IsValidKey(m.key) && IsValidValue(m.value) then Good(m) else Bad
  }

  predicate HasKey(ms: seq<Member>, key: string) {
    exists i :: 0 <= i < |ms| && ms[i].key == key
  }

  function Accept(ms: seq<Member>, p: Parsed): Option<seq<Member>> {
    match p
    case Skip => Some(ms)
    case Bad => None
    case Good(m) => if HasKey(ms, m.key) || |ms| >= MAX_MEMBERS then None else Some(ms + [m])
  }

  /** The members of a split header, or None when it must be rejected. */
  function Collect(parts: seq<string>): Option<seq<Member>> {
    if parts == [] then Some([])
    else match Collect(parts[..|parts| - 1])
      case None => None
      case Some(ms) => Accept(ms, ParseMember(parts[|parts| - 1]))
  }

  function Text(m: Member): string {
    m.key + "=" + m.value
  }

  /** Append a member to what has been serialised so far. */
  function Extend(out: string, m: Member): string {
    if out == "" then Text(m) else out + "," + Text(m)
  }

  /** Members are appended left to right until one would pass the size limit. */
  function Greedy(out: string, ms: seq<Member>): string
    decreases |ms|
  {
    if ms == [] || |Extend(out, ms[0])| > MAX_LEN then out else Greedy(Extend(out, ms[0]), ms[1..])
  }

  function Serialize(ms: seq<Member>): Option<string> {
    if Greedy("", ms) == "" then None else Some(Greedy("", ms))
  }

  function Parse(s: string): Option<string> {
    match Collect(Split(s))
    case None => None
    case Some(ms) => Serialize(ms)
  }
}

/** What the parser accepts and what it makes of it, stated without its loops. */
module TraceStateSpec {
  import opened Prelude
  import opened Strings
  import opened TraceStateModel

  function Pairs(ms: seq<Member>): (ps: seq<string>)
    ensures |ps| == |ms| && forall i :: 0 <= i < |ms| ==> ps[i] == ms[i].key + "=" + ms[i].value
  {
    seq(|ms|, i requires 0 <= i < |ms| => ms[i].key + "=" + ms[i].value)
  }

  function Canonical(ms: seq<Member>): string {
    Join(Pairs(ms))
  }

  lemma PairsSnoc(ms: seq<Member>, m: Member)
    ensures Pairs(ms + [m]) == Pairs(ms) + [Text(m)]
  {
  }

  lemma CanonicalEmpty(ms: seq<Member>)
    ensures Canonical(ms) == "" <==> ms == []
  {
    if |ms| > 1 {
      assert Join(Pairs(ms)) == Pairs(ms)[0] + "," + Join(Pairs(ms)[1..]);
    } else if |ms| == 1 {
      assert Join(Pairs(ms)) == Pairs(ms)[0];
    }
  }

  lemma CanonicalSnoc(ms: seq<Member>)
    ensures Canonical([]) == ""
    ensures ms != [] ==> Canonical(ms) == Extend(Canonical(ms[..|ms| - 1]), ms[|ms| - 1])
  {
    if ms != [] {
      var init, m := ms[..|ms| - 1], ms[|ms| - 1];
      assert ms == init + [m];
      PairsSnoc(init, m);
      JoinSnoc(Pairs(init), Text(m));
      CanonicalEmpty(init);
    }
  }

  /** `k` members fit the size limit and no longer prefix does. */
  ghost predicate LongestFit(ms: seq<Member>, k: nat) {
    k <= |ms| && forall j :: 0 <= j <= |ms| ==> (|Canonical(ms[..j])| <= 512 <==> j <= k)
  }

  // ---------------------------------------------------------------------------------------
  // Serialisation
  // ---------------------------------------------------------------------------------------

  lemma {:induction false} CanonicalGrows(ms: seq<Member>, i: nat, j: nat)
    requires i < j <= |ms|
    ensures |Canonical(ms[..i])| < |Canonical(ms[..j])|
    decreases j
  {
    assert ms[..j][..j - 1] == ms[..j - 1];
    CanonicalSnoc(ms[..j]);
    if i == j - 1 {
    } else {
      CanonicalGrows(ms, i, j - 1);
    }
  }

  lemma FitIsLongest(ms: seq<Member>, i: nat)
    requires i <= |ms| && |Canonical(ms[..i])| <= MAX_LEN
    requires i < |ms| ==> |Canonical(ms[..i + 1])| > MAX_LEN
    ensures LongestFit(ms, i)
  {
    forall j | 0 <= j <= |ms|
      ensures |Canonical(ms[..j])| <= MAX_LEN <==> j <= i
    {
      if j < i {
        CanonicalGrows(ms, j, i);
      } else if i + 1 < j {
        CanonicalGrows(ms, i + 1, j);
      }
    }
  }

  lemma {:induction false} GreedyFrom(ms: seq<Member>, i: nat)
    requires i <= |ms| && |Canonical(ms[..i])| <= MAX_LEN
    ensures exists k: nat :: i <= k && LongestFit(ms, k) && Greedy(Canonical(ms[..i]), ms[i..]) == Canonical(ms[..k])
    decreases |ms| - i
  {
    if i < |ms| {
      assert ms[..i + 1][..i] == ms[..i];
      CanonicalSnoc(ms[..i + 1]);
      assert Canonical(ms[..i + 1]) == Extend(Canonical(ms[..i]), ms[i]);
      if |Canonical(ms[..i + 1])| <= MAX_LEN {
        assert ms[i..][1..] == ms[i + 1..];
        GreedyFrom(ms, i + 1);
        var k: nat :| i + 1 <= k && LongestFit(ms, k)
          && Greedy(Canonical(ms[..i + 1]), ms[i + 1..]) == Canonical(ms[..k]);
        assert i <= k && LongestFit(ms, k);
      } else {
        FitIsLongest(ms, i);
        assert LongestFit(ms, i);
      }
    } else {
      FitIsLongest(ms, i);
      assert LongestFit(ms, i);
    }
  }

  /** The serialiser emits the canonical form of the longest prefix that fits, and nothing exactly
      when even the first member does not fit. */
  lemma {:induction false} SerializesLongestPrefix(ms: seq<Member>, k: nat)
    requires LongestFit(ms, k)
    ensures Serialize(ms) == if k == 0 then None else Some(Canonical(ms[..k]))
  {
    assert ms[..0] == [] && ms[0..] == ms;
    GreedyFrom(ms, 0);
    var n: nat :| 0 <= n && LongestFit(ms, n) && Greedy(Canonical(ms[..0]), ms[0..]) == Canonical(ms[..n]);
    assert |Canonical(ms[..n])| <= MAX_LEN && |Canonical(ms[..k])| <= MAX_LEN;
    assert n == k;
    if k > 0 {
      CanonicalGrows(ms, 0, k);
    }
  }

  lemma LongestFitExists(ms: seq<Member>)
    ensures exists k: nat :: LongestFit(ms, k)
  {
    assert ms[..0] == [];
    GreedyFrom(ms, 0);
  }

  // ---------------------------------------------------------------------------------------
  // Trimming
  // ---------------------------------------------------------------------------------------

  /** Nothing to trim at either end. */
  predicate Tight(s: string) {
    s != "" ==> !IsOws(s[0]) && !IsOws(s[|s| - 1])
  }

  lemma TrimPadded(left: string, s: string, right: string)
    requires AllOws(left) && AllOws(right) && Tight(s)
    ensures TrimOws(left + s + right) == s
  {
    Strings.TrimPadded(left, s, right, IsOws);
  }

  lemma TrimSplits(s: string) returns (left: string, right: string)
    ensures AllOws(left) && AllOws(right) && s == left + TrimOws(s) + right && Tight(TrimOws(s))
  {
    left, right := Strings.TrimSplits(s, IsOws);
  }

  // ---------------------------------------------------------------------------------------
  // Renderings
  // ---------------------------------------------------------------------------------------

  /** One element of a rendered list: blank, or a member with optional whitespace around it and
      around its equals sign. */
  datatype Piece =
    | Blank(pad: string)
    | Entry(left: string, member: Member, beforeEq: string, afterEq: string, right: string)

  function RenderPiece(p: Piece): string {
    match p
    case Blank(pad) => pad
    case Entry(left, m, beforeEq, afterEq, right) => left + (m.key + beforeEq + "=" + afterEq + m.value) + right
  }

  function Rendered(ps: seq<Piece>): seq<string> {
    seq(|ps|, i requires 0 <= i < |ps| => RenderPiece(ps[i]))
  }

  function Render(ps: seq<Piece>): string {
    Join(Rendered(ps))
  }

  function Members(ps: seq<Piece>): seq<Member> {
    if ps == [] then []
    else if ps[|ps| - 1].Blank? then Members(ps[..|ps| - 1])
    else Members(ps[..|ps| - 1]) + [ps[|ps| - 1].member]
  }

  predicate KeyByte(c: char) {
    'a' <= c <= 'z' || '0' <= c <= '9' || c == '_' || c == '-' || c == '*' || c == '/'
  }

  /** At most `max` key bytes, the first a lower-case letter or, where allowed, a digit. */
  predicate Identifier(s: string, max: nat, digitFirst: bool) {
    && 1 <= |s| <= max && ('a' <= s[0] <= 'z' || (digitFirst && '0' <= s[0] <= '9'))
    && forall i :: 0 <= i < |s| ==> KeyByte(s[i])
  }

  /** A simple key, or a tenant and a system identifier joined by one `@`. */
  ghost predicate GrammarKey(key: string) {
    || Identifier(key, 256, false)
    || exists tenant, system :: Identifier(tenant, 241, true) && Identifier(system, 14, false) && key == tenant + "@" + system
  }

  predicate GrammarValue(value: string) {
    && 1 <= |value| <= 256 && value[|value| - 1] != ' '
    && forall i :: 0 <= i < |value| ==> 0x20 <= value[i] as int <= 0x7E && value[i] != ',' && value[i] != '='
  }

  /** Valid by the grammar, and with no leading whitespace of its own. */
  ghost predicate ValidMember(m: Member) {
    GrammarKey(m.key) && GrammarValue(m.value) && m.value[0] != ' '
  }

  /** Optional whitespace: spaces and tabs. */
  predicate Padding(s: string) {
    forall i :: 0 <= i < |s| ==> s[i] == ' ' || s[i] == '\t'
  }

  ghost predicate WellFormedPiece(p: Piece) {
    match p
    case Blank(pad) => Padding(pad)
    case Entry(left, m, beforeEq, afterEq, right) =>
      Padding(left) && Padding(beforeEq) && Padding(afterEq) && Padding(right) && ValidMember(m)
  }

  predicate DistinctKeys(ms: seq<Member>) {
    forall i, j :: 0 <= i < j < |ms| ==> ms[i].key != ms[j].key
  }

  ghost predicate WellFormed(ps: seq<Piece>) {
    && ps != [] && (forall i :: 0 <= i < |ps| ==> WellFormedPiece(ps[i]))
    && DistinctKeys(Members(ps)) && |Members(ps)| <= 32
  }

  lemma KeyCharsHaveNoAt(s: string)
    requires AllKeyChars(s)
    ensures '@' !in s
  {
  }

  lemma KeyParts(key: string)
    ensures IsValidKey(key)
            <==> IsSimpleKey(key) || exists tenant, system :: IsTenantId(tenant) && IsSystemId(system) && key == tenant + "@" + system
  {
    if '@' in key {
      SplitOnceJoins(key, '@');
      var (before, after) := SplitOnce(key, '@').value;
      assert key == before + "@" + after;
      if IsTenantId(before) && IsSystemId(after) {
        KeyCharsHaveNoAt(after);
      }
    }
    if tenant, system :| IsTenantId(tenant) && IsSystemId(system) && key == tenant + "@" + system {
      KeyCharsHaveNoAt(tenant);
      KeyCharsHaveNoAt(system);
      SplitOnceAt(tenant, '@', system);
      assert key == tenant + ['@'] + system;
      assert key[|tenant|] == '@';
    }
    if IsSimpleKey(key) {
      KeyCharsHaveNoAt(key);
    }
  }

  lemma IdentifiersAre(s: string)
    ensures IsSimpleKey(s) <==> Identifier(s, 256, false)
    ensures IsTenantId(s) <==> Identifier(s, 241, true)
    ensures IsSystemId(s) <==> Identifier(s, 14, false)
  {
  }

  /** Keys are the grammar's: a simple key, or a tenant and a system identifier joined by one `@`, each
      in its own alphabet and length. */
  lemma {:induction false} KeyGrammar(key: string)
    ensures IsValidKey(key) <==> GrammarKey(key)
  {
    KeyParts(key);
    IdentifiersAre(key);
    if tenant, system :| IsTenantId(tenant) && IsSystemId(system) && key == tenant + "@" + system {
      IdentifiersAre(tenant);
      IdentifiersAre(system);
    }
    if tenant, system :| Identifier(tenant, 241, true) && Identifier(system, 14, false) && key == tenant + "@" + system {
      IdentifiersAre(tenant);
      IdentifiersAre(system);
    }
  }

  /** Values are one to 256 printable bytes other than comma and equals, the last not a space. */
  lemma ValueGrammar(value: string)
    ensures IsValidValue(value) <==> GrammarValue(value)
  {
  }

  /** Usable on either side of a separator: not empty, nothing to trim, no separator inside. */
  predicate Atom(s: string) {
    s != "" && Tight(s) && ',' !in s && '=' !in s
  }

  lemma KeyCharsAreAtom(s: string)
    requires s != "" && forall i :: 0 <= i < |s| ==> IsKeyChar(s[i]) || s[i] == '@'
    ensures Atom(s)
  {
  }

  lemma KeyIsAtom(key: string)
    requires IsValidKey(key)
    ensures Atom(key)
  {
    if '@' in key {
      SplitOnceJoins(key, '@');
      var (tenant, system) := SplitOnce(key, '@').value;
      assert key == tenant + ['@'] + system;
    }
    KeyCharsAreAtom(key);
  }

  lemma ValueIsAtom(value: string)
    requires IsValidValue(value) && value[0] != ' '
    ensures Atom(value)
  {
  }

  lemma TrimLeftPadded(pad: string, s: string)
    requires AllOws(pad) && Tight(s)
    ensures TrimOws(pad + s) == s
  {
    assert pad + s == pad + s + "";
    TrimPadded(pad, s, "");
  }

  lemma TrimRightPadded(s: string, pad: string)
    requires AllOws(pad) && Tight(s)
    ensures TrimOws(s + pad) == s
  {
    assert s + pad == "" + s + pad;
    TrimPadded("", s, pad);
  }

  lemma OwsHasNoSeparator(pad: string)
    requires AllOws(pad)
    ensures ',' !in pad && '=' !in pad
  {
  }

  lemma PairSplits(name: string, rest: string, left: string, right: string)
    requires name != "" && rest != "" && !IsOws(name[0]) && !IsOws(rest[|rest| - 1]) && '=' !in name
    requires AllOws(left) && AllOws(right)
    ensures TrimOws(left + (name + "=" + rest) + right) == name + "=" + rest
    ensures SplitOnce(name + "=" + rest, '=') == Some((name, rest))
  {
    TrimPadded(left, name + "=" + rest, right);
    SplitOnceAt(name, '=', rest);
  }

  lemma EntryParses(p: Piece)
    requires WellFormedPiece(p) && p.Entry?
    ensures ParseMember(RenderPiece(p)) == Good(p.member)
    ensures ',' !in RenderPiece(p)
  {
    var key, value := p.member.key, p.member.value;
    KeyGrammar(key);
    ValueGrammar(value);
    KeyIsAtom(key);
    ValueIsAtom(value);
    OwsHasNoSeparator(p.left);
    OwsHasNoSeparator(p.beforeEq);
    OwsHasNoSeparator(p.afterEq);
    OwsHasNoSeparator(p.right);
    PairSplits(key + p.beforeEq, p.afterEq + value, p.left, p.right);
    assert key + p.beforeEq + "=" + p.afterEq + value == (key + p.beforeEq) + "=" + (p.afterEq + value);
    TrimRightPadded(key, p.beforeEq);
    TrimLeftPadded(p.afterEq, value);
  }

  lemma BlankParses(p: Piece)
    requires WellFormedPiece(p) && p.Blank?
    ensures ParseMember(RenderPiece(p)) == Skip
    ensures ',' !in RenderPiece(p)
  {
    assert p.pad == p.pad + "" + "";
    TrimPadded(p.pad, "", "");
  }

  lemma PiecesSnoc(init: seq<Piece>, p: Piece)
    ensures Rendered(init + [p]) == Rendered(init) + [RenderPiece(p)]
    ensures Members(init + [p]) == Members(init) + if p.Blank? then [] else [p.member]
  {
    assert (init + [p])[..|init|] == init;
  }

  lemma PieceAccepted(ms: seq<Member>, p: Piece)
    requires WellFormedPiece(p)
    requires p.Entry? ==> !HasKey(ms, p.member.key) && |ms| < MAX_MEMBERS
    ensures Accept(ms, ParseMember(RenderPiece(p))) == Some(ms + if p.Blank? then [] else [p.member])
  {
    if p.Blank? {
      BlankParses(p);
      assert ms + [] == ms;
    } else {
      EntryParses(p);
    }
  }

  lemma {:induction false} CollectRendered(ps: seq<Piece>)
    requires forall i :: 0 <= i < |ps| ==> WellFormedPiece(ps[i])
    requires DistinctKeys(Members(ps)) && |Members(ps)| <= MAX_MEMBERS
    ensures Collect(Rendered(ps)) == Some(Members(ps))
  {
    if ps == [] {
    } else {
      var init, p := ps[..|ps| - 1], ps[|ps| - 1];
      assert ps == init + [p];
      PiecesSnoc(init, p);
      var ms := Members(init);
      assert forall i :: 0 <= i < |ms| ==> ms[i] == Members(ps)[i];
      CollectRendered(init);
      assert p.Entry? ==> Members(ps)[|ms|] == p.member;
      PieceAccepted(ms, p);
    }
  }

  lemma RenderedHaveNoComma(ps: seq<Piece>)
    requires forall i :: 0 <= i < |ps| ==> WellFormedPiece(ps[i])
    ensures forall i :: 0 <= i < |ps| ==> ',' !in Rendered(ps)[i]
  {
    forall i | 0 <= i < |ps|
      ensures ',' !in Rendered(ps)[i]
    {
      if ps[i].Blank? {
        BlankParses(ps[i]);
      } else {
        EntryParses(ps[i]);
      }
    }
  }

  /** Any rendering of at most 32 valid members with distinct keys, whatever its padding and blank
      elements, parses to the canonical form of the longest prefix that fits in 512 bytes. */
  lemma {:induction false} ParsesEveryRendering(ps: seq<Piece>, k: nat)
    requires WellFormed(ps) && LongestFit(Members(ps), k)
    ensures Parse(Render(ps)) == if k == 0 then None else Some(Canonical(Members(ps)[..k]))
  {
    RenderedHaveNoComma(ps);
    SplitJoin(Rendered(ps));
    CollectRendered(ps);
    SerializesLongestPrefix(Members(ps), k);
  }

  // ---------------------------------------------------------------------------------------
  // Nothing else is accepted
  // ---------------------------------------------------------------------------------------

  lemma TightStart(a: string, s: string, rest: string)
    requires AllOws(a) && a + s + rest != "" && !IsOws((a + s + rest)[0])
    ensures a == ""
  {
  }

  lemma TightEnd(front: string, s: string, d: string)
    requires AllOws(d) && front + s + d != "" && !IsOws((front + s + d)[|front + s + d| - 1])
    ensures d == ""
  {
  }

  lemma PairShape(name: string, rest: string, a: string, key: string, b: string, c: string, value: string, d: string)
    requires name == a + key + b && rest == c + value + d && AllOws(a) && AllOws(d)
    requires Tight(name + "=" + rest)
    ensures name + "=" + rest == key + b + "=" + c + value
  {
    var inner := name + "=" + rest;
    assert inner == a + key + (b + "=" + rest);
    TightStart(a, key, b + "=" + rest);
    assert inner == (name + "=" + c) + value + d;
    TightEnd(name + "=" + c, value, d);
    assert name == key + b && rest == c + value;
  }

  lemma PairOf(inner: string) returns (beforeEq: string, afterEq: string)
    requires Tight(inner) && inner != "" && TrimOws(inner) == inner && ParseMember(inner).Good?
    ensures AllOws(beforeEq) && AllOws(afterEq)
    ensures var m := ParseMember(inner).member; inner == m.key + beforeEq + "=" + afterEq + m.value && ValidMember(m)
  {
    SplitOnceJoins(inner, '=');
    var (name, rest) := SplitOnce(inner, '=').value;
    var a, b := TrimSplits(name);
    var c, d := TrimSplits(rest);
    assert inner == name + "=" + rest;
    PairShape(name, rest, a, TrimOws(name), b, c, TrimOws(rest), d);
    KeyGrammar(TrimOws(name));
    ValueGrammar(TrimOws(rest));
    beforeEq, afterEq := b, c;
  }

  lemma TrimIsIdempotent(s: string)
    requires Tight(s)
    ensures TrimOws(s) == s
  {
    assert s == "" + s + "";
    TrimPadded("", s, "");
  }

  lemma PieceOf(text: string) returns (p: Piece)
    requires !ParseMember(text).Bad?
    ensures WellFormedPiece(p) && RenderPiece(p) == text
    ensures if ParseMember(text).Skip? then p.Blank? else p.Entry? && p.member == ParseMember(text).member
  {
    var left, right := TrimSplits(text);
    var inner := TrimOws(text);
    if inner == "" {
      assert text == left + right;
      p := Blank(text);
    } else {
      TrimIsIdempotent(inner);
      var beforeEq, afterEq := PairOf(inner);
      p := Entry(left, ParseMember(text).member, beforeEq, afterEq, right);
    }
  }

  lemma AcceptKeepsShape(ms: seq<Member>, p: Parsed)
    requires DistinctKeys(ms) && |ms| <= MAX_MEMBERS && Accept(ms, p).Some?
    ensures DistinctKeys(Accept(ms, p).value) && |Accept(ms, p).value| <= MAX_MEMBERS
  {
  }

  /** Reading the last element of a split header back as a piece. */
  lemma LastPiece(ms: seq<Member>, text: string) returns (p: Piece)
    requires DistinctKeys(ms) && |ms| <= MAX_MEMBERS && Accept(ms, ParseMember(text)).Some?
    ensures WellFormedPiece(p) && RenderPiece(p) == text
    ensures Accept(ms, ParseMember(text)).value == ms + (if p.Blank? then [] else [p.member])
    ensures DistinctKeys(Accept(ms, ParseMember(text)).value) && |Accept(ms, ParseMember(text)).value| <= MAX_MEMBERS
  {
    p := PieceOf(text);
    AcceptKeepsShape(ms, ParseMember(text));
  }

  lemma {:induction false} PiecesOf(parts: seq<string>) returns (ps: seq<Piece>)
    requires Collect(parts).Some?
    ensures |ps| == |parts| && Rendered(ps) == parts && Members(ps) == Collect(parts).value
    ensures forall i :: 0 <= i < |ps| ==> WellFormedPiece(ps[i])
    ensures DistinctKeys(Members(ps)) && |Members(ps)| <= MAX_MEMBERS
  {
    if parts == [] {
      ps := [];
    } else {
      var init := PiecesOf(parts[..|parts| - 1]);
      var p := LastPiece(Members(init), parts[|parts| - 1]);
      ps := init + [p];
      PiecesSnoc(init, p);
    }
  }

  /** Whatever is not rejected outright is such a rendering: the parser's verdict is exactly
      membership in the grammar with the stated limits. */
  lemma {:induction false} AcceptsOnlyRenderings(s: string)
    ensures Collect(Split(s)).Some? <==> exists ps :: WellFormed(ps) && Render(ps) == s
  {
    if Collect(Split(s)).Some? {
      JoinSplit(s);
      var ps := PiecesOf(Split(s));
      assert WellFormed(ps) && Render(ps) == s;
    }
    if ps :| WellFormed(ps) && Render(ps) == s {
      RenderedHaveNoComma(ps);
      SplitJoin(Rendered(ps));
      CollectRendered(ps);
    }
  }

  predicate FirstFits(ms: seq<Member>) {
    ms != [] && |ms[0].key| + 1 + |ms[0].value| <= 512
  }

  lemma FirstFitsIs(ms: seq<Member>, k: nat)
    requires LongestFit(ms, k)
    ensures k > 0 <==> FirstFits(ms)
  {
    if ms != [] {
      assert ms[..1] == [ms[0]] && ms[..1][..0] == [];
      assert Canonical(ms[..1]) == Text(ms[0]);
      assert |Canonical(ms[..1])| <= MAX_LEN <==> 1 <= k;
    }
  }

  lemma {:induction false} RenderingParses(ps: seq<Piece>)
    requires WellFormed(ps)
    ensures Parse(Render(ps)).Some? <==> FirstFits(Members(ps))
  {
    LongestFitExists(Members(ps));
    var k: nat :| LongestFit(Members(ps), k);
    ParsesEveryRendering(ps, k);
    FirstFitsIs(Members(ps), k);
  }

  /** A header is parsed to something exactly when it is a rendering of valid members with distinct
      keys, no more than the limit, the first of which fits on its own. */
  lemma {:induction false} ParsesExactlyFittingRenderings(s: string)
    ensures Parse(s).Some? <==> exists ps :: WellFormed(ps) && Render(ps) == s && FirstFits(Members(ps))
  {
    AcceptsOnlyRenderings(s);
    if Parse(s).Some? {
      var ps :| WellFormed(ps) && Render(ps) == s;
      RenderingParses(ps);
    }
    if ps :| WellFormed(ps) && Render(ps) == s && FirstFits(Members(ps)) {
      RenderingParses(ps);
    }
  }

  /** The canonical form read as a rendering without padding. */
  function Plain(ms: seq<Member>): seq<Piece> {
    seq(|ms|, i requires 0 <= i < |ms| => Entry("", ms[i], "", "", ""))
  }

  lemma PlainPiece(m: Member)
    ensures RenderPiece(Entry("", m, "", "", "")) == Text(m)
  {
    assert m.key + "" + "=" + "" + m.value == m.key + "=" + m.value;
    assert "" + Text(m) + "" == Text(m);
  }

  lemma {:induction false} PlainMembers(ms: seq<Member>)
    ensures Members(Plain(ms)) == ms
  {
    if ms == [] {
    } else {
      var init, m := ms[..|ms| - 1], ms[|ms| - 1];
      PlainMembers(init);
      assert Plain(ms)[..|ms| - 1] == Plain(init) && Plain(ms)[|ms| - 1].member == m;
      assert ms == init + [m];
    }
  }

  lemma PlainRendersCanonical(ms: seq<Member>)
    ensures Render(Plain(ms)) == Canonical(ms)
  {
    forall i | 0 <= i < |ms|
      ensures RenderPiece(Plain(ms)[i]) == ms[i].key + "=" + ms[i].value
    {
      PlainPiece(ms[i]);
    }
    assert Rendered(Plain(ms)) == Pairs(ms);
  }

  lemma {:induction false} MembersValid(ps: seq<Piece>)
    requires forall i :: 0 <= i < |ps| ==> WellFormedPiece(ps[i])
    ensures forall i :: 0 <= i < |Members(ps)| ==> ValidMember(Members(ps)[i])
  {
    if ps == [] {
    } else {
      MembersValid(ps[..|ps| - 1]);
    }
  }

  lemma PrefixFits(ms: seq<Member>, k: nat)
    requires LongestFit(ms, k)
    ensures LongestFit(ms[..k], k)
  {
    forall j | 0 <= j <= k
      ensures |Canonical(ms[..k][..j])| <= MAX_LEN
    {
      assert ms[..k][..j] == ms[..j];
    }
  }

  lemma PlainIsWellFormed(ms: seq<Member>)
    requires ms != [] && |ms| <= MAX_MEMBERS && DistinctKeys(ms)
    requires forall i :: 0 <= i < |ms| ==> ValidMember(ms[i])
    ensures WellFormed(Plain(ms))
  {
    PlainMembers(ms);
  }

  lemma CanonicalReparses(ms: seq<Member>, k: nat)
    requires LongestFit(ms, k) && 0 < k && DistinctKeys(ms) && |ms| <= MAX_MEMBERS
    requires forall i :: 0 <= i < |ms| ==> ValidMember(ms[i])
    ensures Parse(Canonical(ms[..k])) == Some(Canonical(ms[..k]))
  {
    var kept := ms[..k];
    PrefixFits(ms, k);
    PlainIsWellFormed(kept);
    PlainMembers(kept);
    PlainRendersCanonical(kept);
    ParsesEveryRendering(Plain(kept), k);
    assert kept[..k] == kept;
  }

  /** Every normalised header is a fixed point: parsing it again yields it unchanged. */
  lemma {:induction false} OutputReparsesToItself(s: string)
    requires Parse(s).Some?
    ensures Parse(Parse(s).value) == Parse(s)
  {
    var ps := PiecesOf(Split(s));
    var ms := Members(ps);
    LongestFitExists(ms);
    var k: nat :| LongestFit(ms, k);
    SerializesLongestPrefix(ms, k);
    MembersValid(ps);
    CanonicalReparses(ms, k);
  }
}

/** The parser and the serialiser as the loops they are. */
module TraceState {
  import opened Prelude
  import opened Strings
  import opened TraceStateModel

  lemma ExtendIs(out: string, m: Member)
    ensures |Extend(out, m)| == |out| + (if out == "" then 0 else 1) + |m.key| + 1 + |m.value|
    ensures Extend(out, m) == (if out == "" then out else out + ",") + m.key + "=" + m.value
  {
    assert out + "," + (m.key + "=" + m.value) == (out + ",") + m.key + "=" + m.value;
    assert "" + m.key == m.key;
  }

  method SerializeTracestate(members: seq<Member>) returns (result: Option<string>)
    ensures result == Serialize(members)
  {
    var serialized := "";
    for i := 0 to |members|
      invariant Greedy(serialized, members[i..]) == Greedy("", members)
    {
      assert members[i..][0] == members[i] && members[i..][1..] == members[i + 1..];
      var m := members[i];
      ExtendIs(serialized, m);
      var extra := if serialized == "" then 0 else 1;
      var candidate := |serialized| + extra + |m.key| + 1 + |m.value|;
      if candidate > MAX_LEN {
        break;
      }
      if serialized != "" {
        serialized := serialized + ",";
      }
      serialized := serialized + m.key + "=" + m.value;
    }
    result := if serialized == "" then None else Some(serialized);
  }

  /** The body of the parsing loop up to the duplicate check. */
  method ParseListMember(text: string) returns (parsed: Parsed)
    ensures parsed == ParseMember(text)
  {
    var member := TrimOws(text);
    if member == "" {
      return Skip;
    }
    var pair := SplitOnce(member, '=');
    if pair.None? {
      return Bad;
    }
    var key, value := TrimOws(pair.value.0), TrimOws(pair.value.1);
    if !IsValidKey(key) || !IsValidValue(value) {
      return Bad;
    }
    parsed := Good(Member(key, value));
  }

  lemma {:induction false} RejectedStaysRejected(parts: seq<string>, n: nat)
    requires n <= |parts| && Collect(parts[..n]).None?
    ensures Collect(parts).None?
    decreases |parts|
  {
    if n < |parts| {
      assert parts[..|parts| - 1][..n] == parts[..n];
      RejectedStaysRejected(parts[..|parts| - 1], n);
    } else {
      assert parts[..n] == parts;
    }
  }

  lemma CollectNext(parts: seq<string>, i: nat, members: seq<Member>)
    requires i < |parts| && Collect(parts[..i]) == Some(members)
    ensures Collect(parts[..i + 1]) == Accept(members, ParseMember(parts[i]))
    ensures Accept(members, ParseMember(parts[i])).None? ==> Collect(parts).None?
  {
    assert parts[..i + 1][..i] == parts[..i];
    if Accept(members, ParseMember(parts[i])).None? {
      RejectedStaysRejected(parts, i + 1);
    }
  }

  method ParseTracestate(combined: string) returns (result: Option<string>)
    ensures result == Parse(combined)
  {
    var parts := Split(combined);
    var members: seq<Member> := [];
    for i := 0 to |parts|
      invariant Collect(parts[..i]) == Some(members)
      invariant |members| <= MAX_MEMBERS
    {
      var parsed := ParseListMember(parts[i]);
      CollectNext(parts, i, members);
      match parsed {
        case Skip =>
        case Bad =>
          return None;
        case Good(member) =>
          if HasKey(members, member.key) {
            return None;
          }
          if |members| + 1 > MAX_MEMBERS {
            return None;
          }
          members := members + [member];
      }
    }
    assert parts[..|parts|] == parts;
    result := SerializeTracestate(members);
  }
}
