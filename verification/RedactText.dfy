/**
 The text redactor of the runner's event log (redactRuntimeText).

 The source scans a string for credential prefixes and overwrites the token that
 follows each of them, editing the very string it is scanning. `Mask` is the simple
 form: it copies the text once and never looks back. `MaskInPlace` is the loop.
 Texts are sequences of characters; every character the redactor tests is ASCII.
 */
module RedactText {
  const MARK: string := "[REDACTED]"

  const BEARER_PREFIXES: seq<string> := ["Authorization: Bearer ", "authorization: bearer "]

  const TOKEN_PREFIXES: seq<string> :=
    ["sk-", "ghp_", "github_pat_", "glpat-", "glsa_", "xoxb-", "xoxp-", "agt_", "ags_"]

  const PREFIXES: seq<string> := BEARER_PREFIXES + TOKEN_PREFIXES

  predicate IsDelimiter(c: char) {
    || c == ' ' || c == '\t' || c == '\r' || c == '\n' || c == '\"' || c == '\''
    || c == '`' || c == ',' || c == ';' || c == ')' || c == ']' || c == '}'
  }

  /** `p` stands in `s` at position `i`. */
  predicate OccursAt(s: string, p: string, i: int) {
    0 <= i && i + |p| <= |s| && s[i..i + |p|] == p
  }

  ghost predicate Contains(s: string, p: string) {
    exists i :: OccursAt(s, p, i)
  }

  ghost predicate ContainsAny(s: string, ps: seq<string>) {
    exists k :: 0 <= k < |ps| && Contains(s, ps[k])
  }

  /** At `m` stands a mark with nothing of a token behind it: the text ends there or goes on with a delimiter. */
  predicate Sealed(s: string, m: int) {
    OccursAt(s, MARK, m) && (m + |MARK| < |s| ==> IsDelimiter(s[m + |MARK|]))
  }

  /** Every occurrence of `p` that starts before `bound` is directly followed by such a mark. */
  ghost predicate GuardedBelow(s: string, p: string, bound: int) {
    forall i :: i < bound && OccursAt(s, p, i) ==> Sealed(s, i + |p|)
  }

  /** The redaction post-condition for one prefix. */
  ghost predicate Guarded(s: string, p: string) {
    forall i :: OccursAt(s, p, i) ==> Sealed(s, i + |p|)
  }

  ghost predicate GuardedAll(s: string, ps: seq<string>) {
    forall k :: 0 <= k < |ps| ==> Guarded(s, ps[k])
  }

  /** What a prefix must look like for the redactor to be sound: it cannot overlap a mark. */
  predicate Maskable(p: string) {
    && |p| > 0
    && (p[|p| - 1] == ' ' || p[|p| - 1] == '-' || p[|p| - 1] == '_')
    && forall i :: 0 <= i < |p| ==> p[i] != '[' && p[i] != ']'
  }

  predicate AllMaskable(ps: seq<string>) {
    forall k :: 0 <= k < |ps| ==> Maskable(ps[k])
  }

  lemma BearersAreMaskable()
    ensures AllMaskable(BEARER_PREFIXES)
  {
  }

  lemma TokensAreMaskable()
    ensures AllMaskable(TOKEN_PREFIXES)
  {
  }

  lemma PrefixesAreMaskable()
    ensures AllMaskable(BEARER_PREFIXES) && AllMaskable(TOKEN_PREFIXES) && AllMaskable(PREFIXES)
  {
    BearersAreMaskable();
    TokensAreMaskable();
  }

  /**
   Leftmost occurrence of `p` at or after `from`, and a position past the end of the text
   when there is none: strings.Index on the unscanned suffix.
   */
  function Find(s: string, p: string, from: nat): (i: nat)
    requires from <= |s|
    ensures from <= i
    ensures i <= |s| ==> OccursAt(s, p, i)
    decreases |s| - from
  {
    if OccursAt(s, p, from) then from
    else if from == |s| then |s| + 1
    else Find(s, p, from + 1)
  }

  lemma {:induction false} FindIsLeftmost(s: string, p: string, from: nat)
    requires from <= |s|
    ensures forall i :: from <= i && OccursAt(s, p, i) ==> Find(s, p, from) <= i
    decreases |s| - from
  {
    if !OccursAt(s, p, from) && from < |s| {
      FindIsLeftmost(s, p, from + 1);
    }
  }

  /** End of the token that starts at `from`: the first delimiter, or the end of the text. */
  function TokenEnd(s: string, from: nat): (e: nat)
    requires from <= |s|
    ensures from <= e <= |s|
    decreases |s| - from
  {
    if from < |s| && !IsDelimiter(s[from]) then TokenEnd(s, from + 1) else from
  }

  /** One edit of the loop: the token behind the prefix at `i` becomes the mark. */
  function Edit(s: string, p: string, i: nat): (t: string)
    requires OccursAt(s, p, i)
  {
    s[..i + |p|] + MARK + s[TokenEnd(s, i + |p|)..]
  }

  /** Reference: one copying pass over `s` from position `from` on. */
  function MaskFrom(s: string, p: string, from: nat): string
    requires |p| > 0 && from <= |s|
    decreases |s| - from
  {
    if OccursAt(s, p, from) then p + MARK + MaskFrom(s, p, TokenEnd(s, from + |p|))
    else if from == |s| then ""
    else [s[from]] + MaskFrom(s, p, from + 1)
  }

  function Mask(s: string, p: string): string
    requires |p| > 0
  {
    MaskFrom(s, p, 0)
  }

  /** Reference: all passes, in order. */
  function MaskAll(s: string, ps: seq<string>): string
    requires AllMaskable(ps)
    decreases |ps|
  {
    if |ps| == 0 then s else assert Maskable(ps[0]); MaskAll(Mask(s, ps[0]), ps[1..])
  }

  // --- Scanning depends only on the text that is left.

  /** The texts agree from these positions on. */
  predicate SameRest(s: string, i: nat, t: string, j: nat) {
    i <= |s| && j <= |t| && s[i..] == t[j..]
  }

  lemma SameRestLater(s: string, i: nat, t: string, j: nat, k: nat)
    requires SameRest(s, i, t, j) && i + k <= |s|
    ensures SameRest(s, i + k, t, j + k)
  {
    assert |s[i..]| == |t[j..]|;
    assert s[i + k..] == s[i..][k..] && t[j + k..] == t[j..][k..];
  }

  lemma OccursInSameRest(s: string, i: nat, t: string, j: nat, p: string)
    requires SameRest(s, i, t, j)
    ensures |s| - i == |t| - j
    ensures OccursAt(s, p, i) <==> OccursAt(t, p, j)
  {
    assert |s[i..]| == |t[j..]|;
    if i + |p| <= |s| {
      assert s[i..i + |p|] == s[i..][..|p|] && t[j..j + |p|] == t[j..][..|p|];
    }
  }

  lemma {:induction false} TokenEndInSameRest(s: string, i: nat, t: string, j: nat)
    requires SameRest(s, i, t, j)
    ensures TokenEnd(s, i) - i == TokenEnd(t, j) - j
    decreases |s| - i
  {
    assert |s[i..]| == |t[j..]|;
    if i < |s| {
      assert s[i] == s[i..][0] == t[j..][0] == t[j];
      if !IsDelimiter(s[i]) {
        SameRestLater(s, i, t, j, 1);
        TokenEndInSameRest(s, i + 1, t, j + 1);
      }
    }
  }

  lemma {:induction false} MaskInSameRest(s: string, i: nat, t: string, j: nat, p: string)
    requires SameRest(s, i, t, j) && |p| > 0
    ensures MaskFrom(s, p, i) == MaskFrom(t, p, j)
    decreases |s| - i
  {
    OccursInSameRest(s, i, t, j, p);
    if OccursAt(s, p, i) {
      SameRestLater(s, i, t, j, |p|);
      TokenEndInSameRest(s, i + |p|, t, j + |p|);
      var e := TokenEnd(s, i + |p|);
      SameRestLater(s, i, t, j, e - i);
      MaskInSameRest(s, e, t, TokenEnd(t, j + |p|), p);
    } else if i < |s| {
      assert s[i] == s[i..][0] == t[j..][0] == t[j];
      SameRestLater(s, i, t, j, 1);
      MaskInSameRest(s, i + 1, t, j + 1, p);
    }
  }

  lemma {:induction false} TokenEndUnique(s: string, from: nat, e: nat)
    requires from <= e <= |s|
    requires forall i :: from <= i < e ==> !IsDelimiter(s[i])
    requires e < |s| ==> IsDelimiter(s[e])
    ensures TokenEnd(s, from) == e
    decreases e - from
  {
    if from < e {
      TokenEndUnique(s, from + 1, e);
    }
  }

  /** The copying pass copies everything before the next occurrence. */
  lemma {:induction false} MaskCopies(s: string, p: string, from: nat, i: nat)
    requires |p| > 0 && from <= i <= |s|
    requires forall k :: from <= k < i ==> !OccursAt(s, p, k)
    ensures MaskFrom(s, p, from) == s[from..i] + MaskFrom(s, p, i)
    decreases i - from
  {
    if from == i {
      assert s[from..i] + MaskFrom(s, p, i) == MaskFrom(s, p, i);
    } else {
      MaskSkips(s, p, from);
      hide MaskFrom;
      MaskCopies(s, p, from + 1, i);
      Prepended(s, from, i, MaskFrom(s, p, i));
    }
  }

  lemma MaskSkips(s: string, p: string, from: nat)
    requires |p| > 0 && from < |s| && !OccursAt(s, p, from)
    ensures MaskFrom(s, p, from) == [s[from]] + MaskFrom(s, p, from + 1)
  {
  }

  lemma Prepended(s: string, from: nat, i: nat, rest: string)
    requires from < i <= |s|
    ensures [s[from]] + (s[from + 1..i] + rest) == s[from..i] + rest
  {
    assert s[from..i] == [s[from]] + s[from + 1..i];
  }

  /** Without a further occurrence the rest of the text is copied whole. */
  lemma MaskCopiesRest(s: string, p: string, from: nat)
    requires |p| > 0 && from <= |s|
    requires forall k :: from <= k ==> !OccursAt(s, p, k)
    ensures MaskFrom(s, p, from) == s[from..]
  {
    MaskCopies(s, p, from, |s|);
    assert s[from..|s|] + "" == s[from..];
  }

  /** The inner loop: step over the token until a delimiter. */
  method ScanToken(value: string, from: nat) returns (end: nat)
    requires from <= |value|
    ensures end == TokenEnd(value, from)
  {
    end := from;
    while end < |value| && !IsDelimiter(value[end])
      invariant from <= end <= |value|
      invariant TokenEnd(value, end) == TokenEnd(value, from)
    {
      end := end + 1;
    }
  }

  /** The redaction loop of one prefix. The unscanned suffix shrinks although the text may grow. */
  method MaskInPlace(text: string, p: string) returns (value: string)
    requires Maskable(p)
    ensures value == Mask(text, p)
  {
    value := text;
    var searchFrom := 0;
    assert text[..0] + MaskFrom(text, p, 0) == Mask(text, p);
    hide Mask, MaskFrom, TokenEnd, Find;
    while true
      invariant 0 <= searchFrom <= |value|
      invariant value[..searchFrom] + MaskFrom(value, p, searchFrom) == Mask(text, p)
      decreases |value| - searchFrom
    {
      var index := Find(value, p, searchFrom);
      FindIsLeftmost(value, p, searchFrom);
      if index > |value| {
        MaskCopiesRest(value, p, searchFrom);
        assert value[..searchFrom] + value[searchFrom..] == value;
        break;
      }
      var end := ScanToken(value, index + |p|);
      EditThenMask(value, p, searchFrom, index);
      assert value[..index + |p|] + MARK + value[end..] == Edit(value, p, index);
      value := value[..index + |p|] + MARK + value[end..];
      searchFrom := index + |p| + |MARK|;
    }
  }

  /** Masking what remains after one in-place edit continues the copying pass. */
  lemma EditThenMask(s: string, p: string, from: nat, i: nat)
    requires |p| > 0 && from <= |s| && Find(s, p, from) == i <= |s|
    ensures var t := Edit(s, p, i);
            var next := i + |p| + |MARK|;
            next <= |t| && t[..next] + MaskFrom(t, p, next) == s[..from] + MaskFrom(s, p, from)
  {
    var t := Edit(s, p, i);
    var next := i + |p| + |MARK|;
    var end := TokenEnd(s, i + |p|);
    FindIsLeftmost(s, p, from);
    MaskCopies(s, p, from, i);
    assert t[next..] == s[end..];
    MaskInSameRest(s, end, t, next, p);
    EditedHead(s, p, from, i);
  }

  lemma EditedHead(s: string, p: string, from: nat, i: nat)
    requires OccursAt(s, p, i) && from <= i
    ensures forall rest: string {:trigger p + MARK + rest} ::
              Edit(s, p, i)[..i + |p| + |MARK|] + rest == s[..from] + (s[from..i] + (p + MARK + rest))
  {
    assert Edit(s, p, i)[..i + |p| + |MARK|] == s[..i + |p|] + MARK;
    assert s[..i + |p|] == s[..from] + s[from..i] + p;
  }

  /** One pass per prefix of a list. */
  method MaskEach(text: string, ps: seq<string>) returns (value: string)
    requires AllMaskable(ps)
    ensures value == MaskAll(text, ps)
  {
    value := text;
    assert ps[0..] == ps;
    for n := 0 to |ps|
      invariant MaskAll(value, ps[n..]) == MaskAll(text, ps)
    {
      assert ps[n..][1..] == ps[n + 1..];
      value := MaskInPlace(value, ps[n]);
    }
  }

  lemma {:induction false} MaskAllAppend(s: string, ps: seq<string>, qs: seq<string>)
    requires AllMaskable(ps) && AllMaskable(qs)
    ensures AllMaskable(ps + qs)
    ensures MaskAll(s, ps + qs) == MaskAll(MaskAll(s, ps), qs)
    decreases |ps|
  {
    if |ps| == 0 {
      assert ps + qs == qs;
    } else {
      assert Maskable(ps[0]);
      assert (ps + qs)[1..] == ps[1..] + qs;
      MaskAllAppend(Mask(s, ps[0]), ps[1..], qs);
    }
  }

  /** The whole redactor: the bearer prefixes first, then the token prefixes. */
  method RedactRuntimeText(text: string) returns (value: string)
    ensures value == Redacted(text)
    ensures GuardedAll(value, PREFIXES)
  {
    PrefixesAreMaskable();
    value := MaskEach(text, BEARER_PREFIXES);
    value := MaskEach(value, TOKEN_PREFIXES);
    MaskAllAppend(text, BEARER_PREFIXES, TOKEN_PREFIXES);
    RedactedIsGuarded(text);
  }

  // --- The post-condition.

  /** A word that has nothing in common with a mark. */
  ghost predicate Apart(w: string) {
    && |w| > 0
    && (forall i :: 0 <= i < |w| ==> w[i] != '[' && w[i] != ']')
    && (forall i :: !OccursAt(MARK, w, i))
  }

  lemma MaskableIsApart(p: string)
    requires Maskable(p)
    ensures Apart(p)
  {
    forall i ensures !OccursAt(MARK, p, i) {
      if 0 <= i && i + |p| <= |MARK| {
        assert MARK[i..i + |p|][|p| - 1] == MARK[i + |p| - 1];
      }
    }
  }

  lemma InsideMark(s: string, w: string, i: int, m: int)
    requires OccursAt(s, w, i) && OccursAt(s, MARK, m)
    ensures m <= i && i + |w| <= m + |MARK| ==> OccursAt(MARK, w, i - m)
  {
    if m <= i && i + |w| <= m + |MARK| {
      SliceOfSlice(s, m, m + |MARK|, i - m, i - m + |w|);
      assert s[m..m + |MARK|] == MARK && m + (i - m) == i;
    }
  }

  lemma SliceOfSlice(s: string, a: nat, b: nat, c: nat, d: nat)
    requires a <= b <= |s| && c <= d <= b - a
    ensures s[a..b][c..d] == s[a + c..a + d]
  {
    var t := s[a..b];
    forall k | 0 <= k < d - c ensures t[c..d][k] == s[a + c..a + d][k] {
      assert t[c + k] == s[a + c + k];
    }
    assert t[c..d] == s[a + c..a + d];
  }

  /** An occurrence of such a word never touches a mark. */
  lemma OccurrenceAvoidsMark(s: string, w: string, i: int, m: int)
    requires Apart(w) && OccursAt(s, w, i) && OccursAt(s, MARK, m)
    ensures i + |w| <= m || m + |MARK| <= i
  {
    assert forall k :: i <= k < i + |w| ==> s[k] == w[k - i] && s[k] != '[' && s[k] != ']';
    assert s[m] == MARK[0] && s[m + |MARK| - 1] == MARK[|MARK| - 1];
    InsideMark(s, w, i, m);
  }

  /** Where an occurrence found after an edit came from. */
  lemma OccurrenceAfterEdit(s: string, q: string, at: nat, p: string, i: int)
    requires Apart(p) && OccursAt(s, q, at) && OccursAt(Edit(s, q, at), p, i)
    ensures var next := at + |q| + |MARK|;
            || (i + |p| <= at + |q| && OccursAt(s, p, i))
            || (next <= i && OccursAt(s, p, i - next + TokenEnd(s, at + |q|)))
  {
    var t := Edit(s, q, at);
    var cut := at + |q|;
    var next := cut + |MARK|;
    var end := TokenEnd(s, cut);
    assert t[cut..next] == MARK;
    OccurrenceAvoidsMark(t, p, i, cut);
    if i + |p| <= cut {
      assert t[i..i + |p|] == s[i..i + |p|];
    } else {
      assert t[i..i + |p|] == s[i - next + end..i - next + end + |p|];
    }
  }

  /** Text behind the edited token moves as a block. */
  lemma OccurrenceBehindEdit(s: string, q: string, at: nat, w: string, i: int)
    requires OccursAt(s, q, at) && TokenEnd(s, at + |q|) <= i && OccursAt(s, w, i)
    ensures OccursAt(Edit(s, q, at), w, i - TokenEnd(s, at + |q|) + at + |q| + |MARK|)
  {
    var t := Edit(s, q, at);
    var j := i - TokenEnd(s, at + |q|) + at + |q| + |MARK|;
    assert t[j..j + |w|] == s[i..i + |w|];
  }

  lemma {:induction false} TokenEndStops(s: string, from: nat)
    requires from <= |s|
    ensures TokenEnd(s, from) < |s| ==> IsDelimiter(s[TokenEnd(s, from)])
    decreases |s| - from
  {
    if from < |s| && !IsDelimiter(s[from]) {
      TokenEndStops(s, from + 1);
    }
  }

  /** The mark that an edit puts down is sealed by what ended the token. */
  lemma EditSeals(s: string, q: string, at: nat)
    requires OccursAt(s, q, at)
    ensures Sealed(Edit(s, q, at), at + |q|)
  {
    var t := Edit(s, q, at);
    var cut := at + |q|;
    var end := TokenEnd(s, cut);
    TokenEndStops(s, cut);
    assert t[cut..cut + |MARK|] == MARK;
    assert cut + |MARK| < |t| ==> t[cut + |MARK|] == s[end];
  }

  /** A mark that begins no later than the edited prefix ends survives the edit. */
  lemma MarkSurvivesEdit(s: string, q: string, at: nat, m: int)
    requires Maskable(q) && OccursAt(s, q, at) && Sealed(s, m) && m <= at + |q|
    ensures Sealed(Edit(s, q, at), m)
  {
    var t := Edit(s, q, at);
    MaskableIsApart(q);
    OccurrenceAvoidsMark(s, q, at, m);
    if m == at + |q| {
      EditSeals(s, q, at);
    } else {
      assert t[m..m + |MARK|] == s[m..m + |MARK|];
      assert t[m + |MARK|] == s[m + |MARK|];
    }
  }

  /** A mark behind the edited token moves with what seals it. */
  lemma MarkBehindEdit(s: string, q: string, at: nat, m: int)
    requires OccursAt(s, q, at) && TokenEnd(s, at + |q|) <= m && Sealed(s, m)
    ensures Sealed(Edit(s, q, at), m - TokenEnd(s, at + |q|) + at + |q| + |MARK|)
  {
    OccurrenceBehindEdit(s, q, at, MARK, m);
    var t := Edit(s, q, at);
    var j := m - TokenEnd(s, at + |q|) + at + |q| + |MARK|;
    assert j + |MARK| < |t| ==> t[j + |MARK|] == s[m + |MARK|];
  }

  /** No edit for one prefix breaks the guard of any other (or the same) prefix. */
  lemma EditKeepsGuard(s: string, q: string, at: nat, p: string)
    requires Maskable(p) && Maskable(q) && OccursAt(s, q, at) && Guarded(s, p)
    ensures Guarded(Edit(s, q, at), p)
  {
    hide Edit, Sealed, TokenEnd;
    var t := Edit(s, q, at);
    var next := at + |q| + |MARK|;
    forall i | OccursAt(t, p, i) ensures Sealed(t, i + |p|) {
      MaskableIsApart(p);
      OccurrenceAfterEdit(s, q, at, p, i);
      if i + |p| <= at + |q| {
        MarkSurvivesEdit(s, q, at, i + |p|);
      } else {
        var was := i - next + TokenEnd(s, at + |q|);
        MarkBehindEdit(s, q, at, was + |p|);
      }
    }
  }

  /** An edit at the leftmost unguarded place guards the text up to and including the new mark. */
  lemma EditExtendsGuard(s: string, p: string, from: nat, at: nat)
    requires Maskable(p) && from <= |s| && Find(s, p, from) == at <= |s|
    requires GuardedBelow(s, p, from)
    ensures GuardedBelow(Edit(s, p, at), p, at + |p| + |MARK|)
  {
    var t := Edit(s, p, at);
    FindIsLeftmost(s, p, from);
    forall i | i < at + |p| + |MARK| && OccursAt(t, p, i) ensures Sealed(t, i + |p|) {
      MaskableIsApart(p);
      OccurrenceAfterEdit(s, p, at, p, i);
      if i == at {
        EditSeals(s, p, at);
      } else {
        MarkSurvivesEdit(s, p, at, i + |p|);
      }
    }
  }

  /** After an edit less text is left to scan, although the text may have grown. */
  lemma EditLeavesLess(s: string, p: string, i: nat)
    requires OccursAt(s, p, i)
    ensures |Edit(s, p, i)| - (i + |p| + |MARK|) <= |s| - i - |p|
  {
  }

  lemma GuardedThroughout(s: string, p: string, from: nat)
    requires GuardedBelow(s, p, from) && forall i :: from <= i ==> !OccursAt(s, p, i)
    ensures Guarded(s, p)
  {
  }

  /** One pass guards its own prefix. */
  lemma {:induction false} PassGuards(s: string, p: string, from: nat)
    requires Maskable(p) && from <= |s| && GuardedBelow(s, p, from)
    ensures Guarded(s[..from] + MaskFrom(s, p, from), p)
    decreases |s| - from
  {
    hide MaskFrom, Edit, Guarded, GuardedBelow, Find, Sealed;
    FindIsLeftmost(s, p, from);
    var i := Find(s, p, from);
    if i > |s| {
      MaskCopiesRest(s, p, from);
      GuardedThroughout(s, p, from);
      assert s[..from] + s[from..] == s;
    } else {
      EditThenMask(s, p, from, i);
      EditExtendsGuard(s, p, from, i);
      EditLeavesLess(s, p, i);
      PassGuards(Edit(s, p, i), p, i + |p| + |MARK|);
    }
  }

  /** One pass keeps the guard of every prefix that already had it. */
  lemma {:induction false} PassKeepsGuard(s: string, q: string, from: nat, p: string)
    requires Maskable(p) && Maskable(q) && from <= |s| && Guarded(s, p)
    ensures Guarded(s[..from] + MaskFrom(s, q, from), p)
    decreases |s| - from
  {
    hide MaskFrom, Edit, Guarded, Find;
    FindIsLeftmost(s, q, from);
    var i := Find(s, q, from);
    if i > |s| {
      MaskCopiesRest(s, q, from);
      assert s[..from] + s[from..] == s;
    } else {
      EditThenMask(s, q, from, i);
      EditKeepsGuard(s, q, i, p);
      EditLeavesLess(s, q, i);
      PassKeepsGuard(Edit(s, q, i), q, i + |q| + |MARK|, p);
    }
  }

  lemma MaskGuards(s: string, p: string)
    requires Maskable(p)
    ensures Guarded(Mask(s, p), p)
  {
    PassGuards(s, p, 0);
    assert s[..0] + MaskFrom(s, p, 0) == Mask(s, p);
  }

  lemma MaskKeepsGuard(s: string, q: string, p: string)
    requires Maskable(p) && Maskable(q) && Guarded(s, p)
    ensures Guarded(Mask(s, q), p)
  {
    PassKeepsGuard(s, q, 0, p);
    assert s[..0] + MaskFrom(s, q, 0) == Mask(s, q);
  }

  /**
   After all passes every occurrence of every listed prefix is followed by the mark: each
   pass establishes its own guard and no later pass breaks an earlier one. `ps` is what is
   left to do, and every other prefix of `all` is already guarded.
   */
  lemma {:induction false} MaskAllGuards(s: string, ps: seq<string>, all: seq<string>)
    requires AllMaskable(ps)
    requires forall k :: 0 <= k < |all| ==> Maskable(all[k]) && (all[k] in ps || Guarded(s, all[k]))
    ensures GuardedAll(MaskAll(s, ps), all)
    decreases |ps|
  {
    if ps != [] {
      var t := Mask(s, ps[0]);
      forall k | 0 <= k < |all| ensures all[k] in ps[1..] || Guarded(t, all[k]) {
        if all[k] == ps[0] {
          MaskGuards(s, ps[0]);
        } else if Guarded(s, all[k]) {
          MaskKeepsGuard(s, ps[0], all[k]);
        } else {
          assert ps == [ps[0]] + ps[1..];
        }
      }
      MaskAllGuards(t, ps[1..], all);
    }
  }

  /** Redacted text, as stored in the event log. */
  function Redacted(s: string): string {
    PrefixesAreMaskable();
    MaskAll(s, PREFIXES)
  }

  lemma RedactedIsGuarded(s: string)
    ensures GuardedAll(Redacted(s), PREFIXES)
  {
    PrefixesAreMaskable();
    var all := PREFIXES;
    MaskAllGuards(s, all, all);
  }

  // --- The words and characters of the redactor, written out.

  /** A token ends at one of twelve characters. */
  lemma DelimitersAreTwelve(c: char)
    ensures IsDelimiter(c) <==> c in " \t\r\n\"'`,;)]}"
  {
    var all := " \t\r\n\"'`,;)]}";
    assert |all| == 12;
    assert all[0] == ' ' && all[1] == '\t' && all[2] == '\r' && all[3] == '\n' && all[4] == '\"' && all[5] == '\'';
    assert all[6] == '`' && all[7] == ',' && all[8] == ';' && all[9] == ')' && all[10] == ']' && all[11] == '}';
  }

  lemma PrefixesAreEleven()
    ensures PREFIXES == [
      "Authorization: Bearer ", "authorization: bearer ",
      "sk-", "ghp_", "github_pat_", "glpat-", "glsa_", "xoxb-", "xoxp-", "agt_", "ags_"]
    ensures MARK == "[REDACTED]"
  {
  }

  /** In redacted text no character of a token follows a mark that stands behind a prefix. */
  lemma NothingOfTheTokenStays(s: string, p: string, i: nat)
    requires p in PREFIXES && OccursAt(Redacted(s), p, i)
    ensures var r, m := Redacted(s), i + |p|;
            && OccursAt(r, "[REDACTED]", m)
            && (m + 10 < |r| ==> r[m + 10] in " \t\r\n\"'`,;)]}")
  {
    var r, m := Redacted(s), i + |p|;
    RedactedIsGuarded(s);
    var k :| 0 <= k < |PREFIXES| && PREFIXES[k] == p;
    assert Guarded(r, PREFIXES[k]);
    assert Sealed(r, m);
    if m + 10 < |r| {
      DelimitersAreTwelve(r[m + 10]);
    }
  }

  /**
   One pass, token by token: the text before the first prefix is copied, the whole token behind it is
   replaced by the mark, and the pass goes on with the rest.
   */
  lemma MaskReplacesToken(pre: string, p: string, token: string, rest: string)
    requires |p| > 0
    requires forall c :: c in token ==> c !in " \t\r\n\"'`,;)]}"
    requires |rest| > 0 ==> rest[0] in " \t\r\n\"'`,;)]}"
    requires forall i :: 0 <= i < |pre| ==> !OccursAt(pre + p + token + rest, p, i)
    ensures Mask(pre + p + token + rest, p) == pre + p + MARK + Mask(rest, p)
  {
    var s := pre + p + token + rest;
    var cut, end := |pre| + |p|, |pre| + |p| + |token|;
    Spelled(pre, p, token, rest);
    TokenIsSpanned(s, cut, end);
    hide Mask, TokenEnd;
    MaskSkipsTo(s, p, |pre|, end);
  }

  lemma Spelled(pre: string, p: string, token: string, rest: string)
    ensures var s := pre + p + token + rest;
            var cut, end := |pre| + |p|, |pre| + |p| + |token|;
            && s[..|pre|] == pre && s[|pre|..cut] == p && s[end..] == rest
            && (forall i :: cut <= i < end ==> s[i] == token[i - cut])
            && (end < |s| ==> s[end] == rest[0])
  {
  }

  lemma MaskSkipsTo(s: string, p: string, at: nat, end: nat)
    requires |p| > 0 && OccursAt(s, p, at) && (forall i :: 0 <= i < at ==> !OccursAt(s, p, i))
    requires TokenEnd(s, at + |p|) == end
    ensures Mask(s, p) == s[..at] + p + MARK + Mask(s[end..], p)
  {
    hide MaskFrom, TokenEnd;
    MaskUnfolds(s, p, at);
    MaskCopies(s, p, 0, at);
    var rest := s[end..];
    assert rest[0..] == rest;
    MaskInSameRest(s, end, rest, 0, p);
    assert s[0..at] == s[..at];
    assert s[..at] + (p + MARK + MaskFrom(rest, p, 0)) == s[..at] + p + MARK + MaskFrom(rest, p, 0);
  }

  lemma MaskUnfolds(s: string, p: string, i: nat)
    requires |p| > 0 && OccursAt(s, p, i)
    ensures MaskFrom(s, p, i) == p + MARK + MaskFrom(s, p, TokenEnd(s, i + |p|))
  {
  }

  lemma TokenIsSpanned(s: string, cut: nat, end: nat)
    requires cut <= end <= |s|
    requires forall i :: cut <= i < end ==> s[i] !in " \t\r\n\"'`,;)]}"
    requires end < |s| ==> s[end] in " \t\r\n\"'`,;)]}"
    ensures TokenEnd(s, cut) == end
  {
    forall i | cut <= i < end ensures !IsDelimiter(s[i]) {
      DelimitersAreTwelve(s[i]);
    }
    if end < |s| {
      DelimitersAreTwelve(s[end]);
    }
    TokenEndUnique(s, cut, end);
  }

  // --- When the redactor is idempotent.

  lemma {:induction false} MaskAllUnchanged(s: string, ps: seq<string>)
    requires AllMaskable(ps)
    requires !ContainsAny(s, ps)
    ensures MaskAll(s, ps) == s
    decreases |ps|
  {
    if ps != [] {
      assert !Contains(s, ps[0]);
      MaskCopiesRest(s, ps[0], 0);
      assert s[0..] == s;
      assert forall k :: 0 <= k < |ps[1..]| ==> ps[1..][k] == ps[k + 1];
      MaskAllUnchanged(s, ps[1..]);
    }
  }

  /** On guarded text the token behind a prefix is the mark without its closing bracket. */
  lemma GuardedTokenEnd(s: string, p: string, i: nat)
    requires OccursAt(s, p, i) && Guarded(s, p)
    ensures TokenEnd(s, i + |p|) == i + |p| + |MARK| - 1
  {
    var cut := i + |p|;
    assert Sealed(s, cut);
    assert forall j :: cut <= j < cut + |MARK| ==> s[j] == MARK[j - cut];
    TokenEndUnique(s, cut, cut + |MARK| - 1);
  }

  /** So every edit of guarded text adds one character. */
  lemma {:induction false} MaskNeverShrinks(s: string, p: string, from: nat)
    requires Maskable(p) && Guarded(s, p) && from <= |s|
    ensures |MaskFrom(s, p, from)| >= |s| - from
    decreases |s| - from
  {
    if OccursAt(s, p, from) {
      GuardedTokenEnd(s, p, from);
      MaskNeverShrinks(s, p, TokenEnd(s, from + |p|));
    } else if from < |s| {
      MaskNeverShrinks(s, p, from + 1);
    }
  }

  lemma {:induction false} MaskGrows(s: string, p: string, from: nat, i: nat)
    requires Maskable(p) && Guarded(s, p) && from <= i && OccursAt(s, p, i)
    ensures |MaskFrom(s, p, from)| > |s| - from
    decreases i - from
  {
    if OccursAt(s, p, from) {
      GuardedTokenEnd(s, p, from);
      MaskNeverShrinks(s, p, TokenEnd(s, from + |p|));
    } else {
      MaskGrows(s, p, from + 1, i);
    }
  }

  lemma {:induction false} MaskAllGrowsGuarded(s: string, ps: seq<string>, all: seq<string>)
    requires AllMaskable(ps) && AllMaskable(all) && GuardedAll(s, all)
    requires forall k :: 0 <= k < |ps| ==> ps[k] in all
    ensures |MaskAll(s, ps)| >= |s|
    ensures ContainsAny(s, ps) ==> |MaskAll(s, ps)| > |s|
    decreases |ps|
  {
    if |ps| > 0 {
      var p := ps[0];
      var t := Mask(s, p);
      assert Maskable(p) && p in all && Guarded(s, p);
      MaskNeverShrinks(s, p, 0);
      forall k | 0 <= k < |all| ensures Guarded(t, all[k]) { MaskKeepsGuard(s, p, all[k]); }
      MaskAllGrowsGuarded(t, ps[1..], all);
      if Contains(s, p) {
        var i :| OccursAt(s, p, i);
        MaskGrows(s, p, 0, i);
      } else {
        MaskCopiesRest(s, p, 0);
        assert t == s by { assert s[0..] == s; }
        assert forall k :: 1 <= k < |ps| ==> ps[k] == ps[1..][k - 1];
      }
    }
  }

  /** A pass that edits leaves its prefix in place, so some prefix is always left to find. */
  lemma MaskKeepsSome(s: string, q: string, ps: seq<string>)
    requires Maskable(q) && q in ps && ContainsAny(s, ps)
    ensures ContainsAny(Mask(s, q), ps)
  {
    var i := Find(s, q, 0);
    FindIsLeftmost(s, q, 0);
    if i <= |s| {
      MaskCopies(s, q, 0, i);
      var t := Mask(s, q);
      assert t[i..i + |q|] == q;
      assert OccursAt(t, q, i);
      var k :| 0 <= k < |ps| && ps[k] == q;
      assert Contains(t, ps[k]);
    } else {
      MaskCopiesRest(s, q, 0);
      assert s[0..] == s;
    }
  }

  lemma {:induction false} MaskAllKeepsSome(s: string, ps: seq<string>, all: seq<string>)
    requires AllMaskable(ps) && forall k :: 0 <= k < |ps| ==> ps[k] in all
    requires ContainsAny(s, all)
    ensures ContainsAny(MaskAll(s, ps), all)
    decreases |ps|
  {
    if ps != [] {
      MaskKeepsSome(s, ps[0], all);
      MaskAllKeepsSome(Mask(s, ps[0]), ps[1..], all);
    }
  }

  /** Redacting twice equals redacting once exactly when the text holds none of the prefixes. */
  lemma RedactionIdempotentExactly(s: string)
    ensures Redacted(Redacted(s)) == Redacted(s) <==> !ContainsAny(s, PREFIXES)
    ensures !ContainsAny(s, PREFIXES) ==> Redacted(s) == s
  {
    PrefixesAreMaskable();
    var all := PREFIXES;
    RedactedIsGuarded(s);
    if ContainsAny(s, all) {
      MaskAllKeepsSome(s, all, all);
      MaskAllGrowsGuarded(MaskAll(s, all), all, all);
    } else {
      MaskAllUnchanged(s, all);
    }
  }
}
