/**
 The JSON redactor of the runner's event log (redactRuntimeJSON), and what it does to a
 document, position by position.
 */
module RedactJson {
  import opened Wrappers
  import opened RedactText

  datatype Json =
    | Null
    | Bool(b: bool)
    | Number(literal: string)
    | Str(s: string)
    | Arr(items: seq<Json>)
    | Obj(fields: map<string, Json>)

  const BLANK: Json := Str(MARK)

  const SENSITIVE_MARKERS: seq<string> :=
    ["secret", "token", "password", "apikey", "api_key", "authorization", "privatekey", "private_key"]

  /** Lower case as far as ASCII words can tell: only two non-ASCII letters fold into ASCII. */
  function Lower(c: char): char {
    if 'A' <= c <= 'Z' then ((c as int) + 32) as char
    else if c == '\U{212A}' then 'k'
    else if c == '\U{0130}' then 'i'
    else c
  }

  function ToLower(s: string): string {
    seq(|s|, i requires 0 <= i < |s| => Lower(s[i]))
  }

  /** One of the markers occurs in the text, in upper or lower case. */
  predicate NamesSecret(text: string) {
    var lower := ToLower(text);
    exists k, i :: 0 <= k < |SENSITIVE_MARKERS| && 0 <= i <= |lower| && OccursAt(lower, SENSITIVE_MARKERS[k], i)
  }

  predicate IsSensitiveKey(key: string) {
    var lower := ToLower(key);
    lower != "input_tokens" && lower != "output_tokens" && NamesSecret(key)
  }

  /** The character is the letter, its capital, or one of two signs that fold into a letter. */
  predicate Writes(c: char, letter: char) {
    || c == letter
    || ('a' <= letter <= 'z' && 'A' <= c <= 'Z' && (c as int) - ('A' as int) == (letter as int) - ('a' as int))
    || (letter == 'k' && c == '\U{212A}') || (letter == 'i' && c == '\U{0130}')
  }

  /** The text is the word in some mixture of upper and lower case. */
  predicate Spells(text: string, word: string) {
    |text| == |word| && forall i :: 0 <= i < |word| ==> Writes(text[i], word[i])
  }

  predicate SpellsAt(text: string, word: string, i: int) {
    0 <= i && i + |word| <= |text| && Spells(text[i..i + |word|], word)
  }

  /** Lower-case words made of letters and underscores. */
  predicate Word(w: string) {
    forall i :: 0 <= i < |w| ==> 'a' <= w[i] <= 'z' || w[i] == '_'
  }

  lemma LowerSpells(text: string, word: string)
    requires Word(word)
    ensures ToLower(text) == word <==> Spells(text, word)
  {
    if ToLower(text) == word {
      assert forall i :: 0 <= i < |word| ==> Lower(text[i]) == ToLower(text)[i];
    }
  }

  lemma MarkersAreWords(k: nat)
    requires k < |SENSITIVE_MARKERS|
    ensures Word(SENSITIVE_MARKERS[k])
  {
  }

  lemma OccursSpelled(text: string, word: string, i: int)
    requires Word(word)
    ensures OccursAt(ToLower(text), word, i) <==> SpellsAt(text, word, i)
  {
    if 0 <= i && i + |word| <= |text| {
      assert ToLower(text)[i..i + |word|] == ToLower(text[i..i + |word|]);
      LowerSpells(text[i..i + |word|], word);
    }
  }

  ghost predicate HasSpelled(text: string, word: string) {
    exists i :: SpellsAt(text, word, i)
  }

  /**
   A key is sensitive if and only if it contains one of eight words in any case and is not one of the
   two token counters in any case.
   */
  lemma SensitiveExactly(key: string)
    ensures IsSensitiveKey(key) <==>
            && !Spells(key, "input_tokens") && !Spells(key, "output_tokens")
            && (HasSpelled(key, "secret") || HasSpelled(key, "token") || HasSpelled(key, "password")
                || HasSpelled(key, "apikey") || HasSpelled(key, "api_key") || HasSpelled(key, "authorization")
                || HasSpelled(key, "privatekey") || HasSpelled(key, "private_key"))
  {
    LowerSpells(key, "input_tokens");
    LowerSpells(key, "output_tokens");
    NamesExactly(key);
    assert SENSITIVE_MARKERS[0] == "secret" && SENSITIVE_MARKERS[1] == "token" && SENSITIVE_MARKERS[2] == "password";
    assert SENSITIVE_MARKERS[3] == "apikey" && SENSITIVE_MARKERS[4] == "api_key" && SENSITIVE_MARKERS[5] == "authorization";
    assert SENSITIVE_MARKERS[6] == "privatekey" && SENSITIVE_MARKERS[7] == "private_key";
    hide NamesSecret, Spells, HasSpelled, ToLower;
  }

  lemma NamesExactly(text: string)
    ensures NamesSecret(text) <==> exists k :: 0 <= k < |SENSITIVE_MARKERS| && HasSpelled(text, SENSITIVE_MARKERS[k])
  {
    if k, i :| 0 <= k < |SENSITIVE_MARKERS| && OccursAt(ToLower(text), SENSITIVE_MARKERS[k], i) {
      MarkersAreWords(k);
      OccursSpelled(text, SENSITIVE_MARKERS[k], i);
      assert HasSpelled(text, SENSITIVE_MARKERS[k]);
    }
    if k :| 0 <= k < |SENSITIVE_MARKERS| && HasSpelled(text, SENSITIVE_MARKERS[k]) {
      MarkersAreWords(k);
      var i :| SpellsAt(text, SENSITIVE_MARKERS[k], i);
      OccursSpelled(text, SENSITIVE_MARKERS[k], i);
    }
  }

  /** A `value` field beside a `name` field that names a secret. */
  predicate HidesValue(fields: map<string, Json>, key: string) {
    key == "value" && "name" in fields && fields["name"].Str? && IsSensitiveKey(fields["name"].s)
  }

  function Redact(value: Json, key: string): Json
    decreases value
  {
    if IsSensitiveKey(key) then BLANK
    else match value
      case Obj(fields) =>
        Obj(map k | k in fields :: if HidesValue(fields, k) then BLANK else Redact(fields[k], k))
      case Arr(items) => Arr(seq(|items|, i requires 0 <= i < |items| => Redact(items[i], "")))
      case Str(s) => Str(Redacted(s))
      case _ => value
  }

  // --- Positions in a document.

  datatype Step = Field(name: string) | Item(index: nat)

  predicate HasStep(j: Json, step: Step) {
    match step
    case Field(k) => j.Obj? && k in j.fields
    case Item(i) => j.Arr? && i < |j.items|
  }

  function Child(j: Json, step: Step): Json
    requires HasStep(j, step)
  {
    match step
    case Field(k) => j.fields[k]
    case Item(i) => j.items[i]
  }

  function At(j: Json, path: seq<Step>): Option<Json> {
    if |path| == 0 then Some(j)
    else if HasStep(j, path[0]) then At(Child(j, path[0]), path[1..])
    else None
  }

  /** The step enters a position that must not be shown. */
  predicate EntersSecret(j: Json, step: Step) {
    && step.Field? && HasStep(j, step)
    && (IsSensitiveKey(step.name)
        || (step.name == "value" && "name" in j.fields && j.fields["name"].Str? && IsSensitiveKey(j.fields["name"].s)))
  }

  /** Number of steps of `path` up to and including the first that enters a secret; 0 if none does. */
  function SecretDepth(j: Json, path: seq<Step>): nat {
    if |path| == 0 || !HasStep(j, path[0]) then 0
    else if EntersSecret(j, path[0]) then 1
    else
      var rest := SecretDepth(Child(j, path[0]), path[1..]);
      if rest == 0 then 0 else 1 + rest
  }

  /** Same kind of value, with the same keys, length or scalar; text is redacted. */
  predicate SameOutside(before: Json, after: Json) {
    match before
    case Obj(fields) => after.Obj? && after.fields.Keys == fields.Keys
    case Arr(items) => after.Arr? && |after.items| == |items|
    case Str(s) => after == Str(Redacted(s))
    case _ => after == before
  }

  /**
   Redaction preserves structure. A position reached without entering a secret is present
   after redaction exactly when it was before, with the same shape, keys and scalars. The
   entrance of a secret holds the blank, and nothing is left below it. `key` is the field
   the document sits in; at the top it is the empty string.
   */
  lemma {:induction false} RedactionByPosition(j: Json, key: string, path: seq<Step>)
    requires !IsSensitiveKey(key)
    ensures var r := Redact(j, key);
            var depth := SecretDepth(j, path);
            if depth == 0 then
              && (At(r, path).Some? <==> At(j, path).Some?)
              && (At(j, path).Some? ==> SameOutside(At(j, path).value, At(r, path).value))
            else
              At(r, path) == if depth == |path| then Some(BLANK) else None
    decreases |path|
  {
    var r := Redact(j, key);
    if |path| > 0 && HasStep(j, path[0]) {
      var step := path[0];
      assert HasStep(r, step);
      if EntersSecret(j, step) {
        var k := step.name;
        assert IsSensitiveKey(k) ==> Redact(j.fields[k], k) == BLANK;
        assert r.fields[k] == BLANK;
        BlankHasNoParts(path[1..]);
      } else {
        var under := if step.Field? then step.name else "";
        EmptyKeyIsPlain();
        assert Child(r, step) == Redact(Child(j, step), under);
        RedactionByPosition(Child(j, step), under, path[1..]);
      }
    }
  }

  lemma BlankHasNoParts(path: seq<Step>)
    ensures At(BLANK, path) == if |path| == 0 then Some(BLANK) else None
  {
  }

  lemma EmptyKeyIsPlain()
    ensures !IsSensitiveKey("")
  {
    assert ToLower("") == "";
  }

  lemma NameIsPlain()
    ensures !IsSensitiveKey("name")
  {
    assert ToLower("name") == "name";
  }

  /** What a stored payload may look like, said of the payload alone. */
  ghost predicate Clean(j: Json)
    decreases j
  {
    match j
    case Obj(fields) =>
      && (forall k :: k in fields ==> Clean(fields[k]) && (IsSensitiveKey(k) ==> fields[k] == BLANK))
      && ("value" in fields && "name" in fields && fields["name"].Str? && IsSensitiveKey(fields["name"].s) ==>
            fields["value"] == BLANK)
    case Arr(items) => forall i :: 0 <= i < |items| ==> Clean(items[i])
    case Str(s) => GuardedAll(s, PREFIXES)
    case _ => true
  }

  lemma BlankIsClean()
    ensures Clean(BLANK)
  {
    PrefixesAreMaskable();
    var all := PREFIXES;
    forall k, i | 0 <= k < |all| ensures !OccursAt(MARK, all[k], i) {
      assert Maskable(all[k]);
      MaskableIsApart(all[k]);
    }
  }

  // --- Redacting a name never makes it sensitive

  /** No marker, in whatever case, has anything in common with a mark. */
  lemma MarkersAreApart(v: string, k: nat)
    requires k < |SENSITIVE_MARKERS| && ToLower(v) == SENSITIVE_MARKERS[k]
    ensures Apart(v)
  {
    var w := SENSITIVE_MARKERS[k];
    assert |v| == |w| && |w| >= 2;
    forall i | 0 <= i < |v| ensures v[i] != '[' && v[i] != ']' {
      assert Lower(v[i]) == w[i];
    }
    assert Lower(v[0]) == w[0] && Lower(v[1]) == w[1];
    forall i ensures !OccursAt(MARK, v, i) {
      if 0 <= i && i + |v| <= |MARK| {
        assert MARK[i..i + |v|][0] == MARK[i] && MARK[i..i + |v|][1] == MARK[i + 1];
      }
    }
  }

  lemma OccursInAnyCase(s: string, v: string, w: string, i: int)
    requires OccursAt(s, v, i) && ToLower(v) == w
    ensures OccursAt(ToLower(s), w, i)
  {
    assert ToLower(s)[i..i + |w|] == w;
  }

  lemma EditNamesNothing(s: string, q: string, at: nat)
    requires OccursAt(s, q, at) && NamesSecret(Edit(s, q, at))
    ensures NamesSecret(s)
  {
    hide Edit;
    var t := Edit(s, q, at);
    var k, i :| 0 <= k < |SENSITIVE_MARKERS| && 0 <= i <= |t| && OccursAt(ToLower(t), SENSITIVE_MARKERS[k], i);
    var j := MarkerWasThere(s, q, at, k, i);
    assert OccursAt(ToLower(s), SENSITIVE_MARKERS[k], j);
  }

  lemma MarkerWasThere(s: string, q: string, at: nat, k: nat, i: nat) returns (j: int)
    requires OccursAt(s, q, at) && k < |SENSITIVE_MARKERS| && OccursAt(ToLower(Edit(s, q, at)), SENSITIVE_MARKERS[k], i)
    ensures OccursAt(ToLower(s), SENSITIVE_MARKERS[k], j)
  {
    hide Edit, TokenEnd;
    var t := Edit(s, q, at);
    var w := SENSITIVE_MARKERS[k];
    var v := t[i..i + |w|];
    assert ToLower(v) == ToLower(t)[i..i + |w|];
    MarkersAreApart(v, k);
    OccurrenceAfterEdit(s, q, at, v, i);
    j := if i + |v| <= at + |q| then i else i - (at + |q| + |MARK|) + TokenEnd(s, at + |q|);
    OccursInAnyCase(s, v, w, j);
  }

  lemma {:induction false} PassNamesNothing(s: string, q: string, from: nat)
    requires Maskable(q) && from <= |s| && NamesSecret(s[..from] + MaskFrom(s, q, from))
    ensures NamesSecret(s)
    decreases |s| - from
  {
    FindIsLeftmost(s, q, from);
    hide MaskFrom, Edit, NamesSecret, Find;
    var i := Find(s, q, from);
    if i > |s| {
      MaskCopiesRest(s, q, from);
      assert s[..from] + s[from..] == s;
    } else {
      EditThenMask(s, q, from, i);
      PassNamesNothing(Edit(s, q, i), q, i + |q| + |MARK|);
      EditNamesNothing(s, q, i);
    }
  }

  lemma {:induction false} MaskAllNamesNothing(s: string, ps: seq<string>)
    requires AllMaskable(ps) && NamesSecret(MaskAll(s, ps))
    ensures NamesSecret(s)
    decreases |ps|
  {
    if |ps| > 0 {
      assert Maskable(ps[0]);
      MaskAllNamesNothing(Mask(s, ps[0]), ps[1..]);
      assert s[..0] + MaskFrom(s, ps[0], 0) == Mask(s, ps[0]);
      PassNamesNothing(s, ps[0], 0);
    }
  }

  /** No prefix ends like the two names that are exempt. */
  lemma CountersHaveNoPrefix(s: string)
    requires ToLower(s) == "input_tokens" || ToLower(s) == "output_tokens"
    ensures !ContainsAny(s, PREFIXES)
  {
    forall k, i | 0 <= k < |PREFIXES| ensures !OccursAt(s, PREFIXES[k], i) {
      PrefixesAreMaskable();
      PrefixEnds(k);
      NoSuchEnd(s, PREFIXES[k], i);
    }
  }

  /** A prefix that ends in an underscore has another letter than u two places before. */
  lemma PrefixEnds(k: nat)
    requires k < |PREFIXES|
    ensures |PREFIXES[k]| >= 3
    ensures var p := PREFIXES[k]; p[|p| - 1] == '_' ==> Lower(p[|p| - 3]) != 'u'
  {
    assert PREFIXES == BEARER_PREFIXES + TOKEN_PREFIXES;
  }

  lemma NoSuchEnd(s: string, p: string, i: int)
    requires ToLower(s) == "input_tokens" || ToLower(s) == "output_tokens"
    requires Maskable(p) && |p| >= 3 && (p[|p| - 1] == '_' ==> Lower(p[|p| - 3]) != 'u')
    ensures !OccursAt(s, p, i)
  {
    if 0 <= i && i + |p| <= |s| {
      var last := i + |p| - 1;
      assert s[i..i + |p|][|p| - 1] == s[last] && s[i..i + |p|][|p| - 3] == s[last - 2];
      assert Lower(s[last]) == ToLower(s)[last] && Lower(s[last - 2]) == ToLower(s)[last - 2];
    }
  }

  lemma RedactionNamesNothing(s: string)
    requires IsSensitiveKey(Redacted(s))
    ensures IsSensitiveKey(s)
  {
    PrefixesAreMaskable();
    MaskAllNamesNothing(s, PREFIXES);
    if ToLower(s) == "input_tokens" || ToLower(s) == "output_tokens" {
      CountersHaveNoPrefix(s);
      RedactionIdempotentExactly(s);
    }
  }

  /** Whatever the runtime sends, the redacted document is clean at every depth. */
  lemma {:induction false} RedactedIsClean(j: Json, key: string)
    ensures Clean(Redact(j, key))
    decreases j
  {
    BlankIsClean();
    NameIsPlain();
    hide GuardedAll, IsSensitiveKey, Redacted;
    if !IsSensitiveKey(key) {
      match j
      case Obj(fields) =>
        forall k | k in fields ensures Clean(Redact(fields[k], k)) { RedactedIsClean(fields[k], k); }
        if "name" in fields && fields["name"].Str? && IsSensitiveKey(Redacted(fields["name"].s)) {
          RedactionNamesNothing(fields["name"].s);
        }
      case Arr(items) =>
        forall i | 0 <= i < |items| ensures Clean(Redact(items[i], "")) { RedactedIsClean(items[i], ""); }
      case Str(s) => RedactedIsGuarded(s);
      case _ =>
    }
  }
}
