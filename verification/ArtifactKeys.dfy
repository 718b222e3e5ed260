/** Object keys of the artifact store: how they are built, scoped to a run, and checked. */
module ArtifactKeys {
  import opened Wrappers

  // --- Segments

  predicate AlphaNumeric(c: char) {
    'A' <= c <= 'Z' || 'a' <= c <= 'z' || '0' <= c <= '9'
  }

  predicate Inner(c: char) {
    AlphaNumeric(c) || c == '.' || c == '_' || c == '-'
  }

  predicate ValidSegment(s: string) {
    1 <= |s| <= 128 && AlphaNumeric(s[0]) && forall i :: 0 <= i < |s| ==> Inner(s[i])
  }

  predicate SlashFree(s: string) {
    forall i :: 0 <= i < |s| ==> s[i] != '/'
  }

  predicate AllValid(segments: seq<string>) {
    forall i :: 0 <= i < |segments| ==> ValidSegment(segments[i])
  }

  predicate Hex(c: char) {
    '0' <= c <= '9' || 'a' <= c <= 'f'
  }

  /** Sixteen random bytes in hexadecimal. */
  predicate RandomId(id: string) {
    |id| == 32 && forall i :: 0 <= i < |id| ==> Hex(id[i])
  }

  predicate CodeOfAlphaNumeric(n: int) {
    48 <= n <= 57 || 65 <= n <= 90 || 97 <= n <= 122
  }

  /** A segment has 1 to 128 ASCII letters, digits, dots, underscores and hyphens and begins with a letter or digit. */
  lemma SegmentExactly(s: string)
    ensures ValidSegment(s) <==>
            && 1 <= |s| <= 128 && CodeOfAlphaNumeric(s[0] as int)
            && forall i :: 0 <= i < |s| ==> CodeOfAlphaNumeric(s[i] as int) || s[i] as int in {45, 46, 95}
  {
  }

  /** The random id is written in lower-case hexadecimal digits. */
  lemma RandomIdExactly(id: string)
    ensures RandomId(id) <==> |id| == 32 && forall i :: 0 <= i < |id| ==> 48 <= id[i] as int <= 57 || 97 <= id[i] as int <= 102
  {
  }

  // --- Join and split

  function Join(segments: seq<string>): string {
    if |segments| == 0 then ""
    else if |segments| == 1 then segments[0]
    else segments[0] + "/" + Join(segments[1..])
  }

  function FirstSlash(s: string): (n: nat)
    ensures n <= |s| && SlashFree(s[..n]) && (n < |s| ==> s[n] == '/')
  {
    if |s| == 0 || s[0] == '/' then 0 else 1 + FirstSlash(s[1..])
  }

  function Split(s: string): seq<string>
    decreases |s|
  {
    var n := FirstSlash(s);
    if n == |s| then [s] else [s[..n]] + Split(s[n + 1..])
  }

  lemma JoinCons(head: string, rest: seq<string>)
    requires |rest| > 0
    ensures Join([head] + rest) == head + "/" + Join(rest)
  {
    assert ([head] + rest)[1..] == rest;
  }

  lemma {:induction false} FirstSlashFound(s: string, n: nat)
    requires n <= |s| && SlashFree(s[..n]) && (n < |s| ==> s[n] == '/')
    ensures FirstSlash(s) == n
  {
    if n > 0 {
      assert s[..n][0] == s[0];
      assert s[1..][..n - 1] == s[..n][1..];
      FirstSlashFound(s[1..], n - 1);
    }
  }

  lemma SplitCons(head: string, tail: string)
    requires SlashFree(head)
    ensures Split(head + "/" + tail) == [head] + Split(tail)
  {
    var s := head + "/" + tail;
    assert s[..|head|] == head && s[|head| + 1..] == tail;
    FirstSlashFound(s, |head|);
  }

  lemma SplitOne(s: string)
    requires SlashFree(s)
    ensures Split(s) == [s]
  {
    assert s[..|s|] == s;
    FirstSlashFound(s, |s|);
  }

  lemma {:induction false} SplitJoin(segments: seq<string>)
    requires |segments| > 0 && forall i :: 0 <= i < |segments| ==> SlashFree(segments[i])
    ensures Split(Join(segments)) == segments
  {
    hide Split;
    if |segments| == 1 {
      SplitOne(segments[0]);
    } else {
      SplitJoin(segments[1..]);
      SplitCons(segments[0], Join(segments[1..]));
    }
  }

  lemma {:induction false} JoinSplit(s: string)
    ensures |Split(s)| > 0 && Join(Split(s)) == s
    decreases |s|
  {
    hide Split, Join, FirstSlash;
    var n := FirstSlash(s);
    if n == |s| {
      assert s[..n] == s;
      SplitOne(s);
      JoinOne(s);
    } else {
      var head, tail := s[..n], s[n + 1..];
      assert s == head + "/" + tail;
      SplitCons(head, tail);
      JoinSplit(tail);
      JoinCons(head, Split(tail));
    }
  }

  lemma JoinOne(s: string)
    ensures Join([s]) == s
  {
  }

  // --- Building and scoping

  function NonEmpty(values: seq<string>): seq<string> {
    if |values| == 0 then []
    else if values[0] == "" then NonEmpty(values[1..])
    else [values[0]] + NonEmpty(values[1..])
  }

  /** The configured prefix has no slash at either end; the owner is an organization, a project and a run. */
  datatype Owner = Owner(organization: string, project: string, run: string)

  predicate ValidOwner(o: Owner) {
    ValidSegment(o.organization) && ValidSegment(o.project) && ValidSegment(o.run)
  }

  function Key(prefix: string, o: Owner, id: string, name: string): string {
    Join(NonEmpty([prefix, o.organization, o.project, o.run, id + "-" + name]))
  }

  function PutKey(prefix: string, o: Owner, id: string, name: string): Option<string> {
    if ValidOwner(o) && ValidSegment(name) then Some(Key(prefix, o, id, name)) else None
  }

  function Scope(prefix: string, o: Owner): string {
    Join(NonEmpty([prefix, o.organization, o.project, o.run])) + "/"
  }

  /** The check before an object is deleted, opened or handed out. */
  predicate InScope(prefix: string, o: Owner, key: string) {
    ValidOwner(o) && Scope(prefix, o) <= key
  }

  function Lead(prefix: string): string {
    if prefix == "" then "" else prefix + "/"
  }

  lemma {:induction false} NonEmptyKeeps(values: seq<string>)
    requires forall i :: 0 <= i < |values| ==> values[i] != ""
    ensures NonEmpty(values) == values
  {
    if |values| > 0 {
      NonEmptyKeeps(values[1..]);
    }
  }

  lemma LedJoin(prefix: string, values: seq<string>)
    requires |values| > 0 && forall i :: 0 <= i < |values| ==> values[i] != ""
    ensures Join(NonEmpty([prefix] + values)) == Lead(prefix) + Join(values)
  {
    NonEmptyKeeps(values);
    assert ([prefix] + values)[1..] == values;
    JoinCons(prefix, values);
  }

  lemma KeyShape(prefix: string, o: Owner, id: string, name: string)
    requires ValidOwner(o)
    ensures Key(prefix, o, id, name) ==
              Lead(prefix) + (o.organization + "/" + (o.project + "/" + (o.run + "/" + (id + "-" + name))))
  {
    var leaf := id + "-" + name;
    var values := [o.organization, o.project, o.run, leaf];
    assert [prefix] + values == [prefix, o.organization, o.project, o.run, leaf];
    LedJoin(prefix, values);
    assert values == [o.organization] + ([o.project] + ([o.run] + [leaf]));
    JoinCons(o.organization, [o.project] + ([o.run] + [leaf]));
    JoinCons(o.project, [o.run] + [leaf]);
    JoinCons(o.run, [leaf]);
    assert o.run + "/" + leaf == o.run + "/" + (id + "-" + name);
  }

  lemma ScopeShape(prefix: string, o: Owner)
    requires ValidOwner(o)
    ensures Scope(prefix, o) == Lead(prefix) + (o.organization + "/" + (o.project + "/" + (o.run + "/" + "")))
  {
    var values := [o.organization, o.project, o.run];
    assert [prefix] + values == [prefix, o.organization, o.project, o.run];
    LedJoin(prefix, values);
    assert values == [o.organization] + ([o.project] + [o.run]);
    JoinCons(o.organization, [o.project] + [o.run]);
    JoinCons(o.project, [o.run]);
    assert Join(values) + "/" == o.organization + "/" + (o.project + "/" + (o.run + "/" + ""));
  }

  /** Two texts that start with a slash-free segment and a slash agree in the segment. */
  lemma HeadsAgree(a: string, rest: string, b: string, start: string)
    requires SlashFree(a) && SlashFree(b)
    ensures b + "/" + start <= a + "/" + rest <==> b == a && start <= rest
  {
    var s, t := b + "/" + start, a + "/" + rest;
    if s <= t {
      assert t[..|a|] == a && s[..|b|] == b;
      assert t[..|b|] == s[..|b|] && t[|b|] == s[|b|] == '/';
      FirstSlashFound(t, |a|);
      FirstSlashFound(t, |b|);
      assert s[|b| + 1..] == start && t[|a| + 1..] == rest;
    }
  }

  lemma LeadCancels(lead: string, s: string, t: string)
    ensures lead + s <= lead + t <==> s <= t
  {
    assert (lead + s)[|lead|..] == s && (lead + t)[|lead|..] == t;
  }

  lemma ValidIsSlashFree(s: string)
    requires ValidSegment(s)
    ensures SlashFree(s)
  {
  }

  /** A stored key passes the scope check of exactly the owner it was stored for. */
  lemma ScopeIsExact(prefix: string, o: Owner, id: string, name: string, other: Owner)
    requires PutKey(prefix, o, id, name).Some? && ValidOwner(other)
    ensures InScope(prefix, other, PutKey(prefix, o, id, name).value) <==> other == o
  {
    KeyShape(prefix, o, id, name);
    ScopeShape(prefix, other);
    ValidIsSlashFree(o.organization);
    ValidIsSlashFree(other.organization);
    ValidIsSlashFree(o.project);
    ValidIsSlashFree(other.project);
    ValidIsSlashFree(o.run);
    ValidIsSlashFree(other.run);
    hide ValidSegment, SlashFree, Key, Scope, Lead;
    var leaf := id + "-" + name;
    LeadCancels(Lead(prefix), other.organization + "/" + (other.project + "/" + (other.run + "/" + "")),
      o.organization + "/" + (o.project + "/" + (o.run + "/" + leaf)));
    HeadsAgree(o.organization, o.project + "/" + (o.run + "/" + leaf), other.organization, other.project + "/" + (other.run + "/" + ""));
    HeadsAgree(o.project, o.run + "/" + leaf, other.project, other.run + "/" + "");
    HeadsAgree(o.run, leaf, other.run, "");
  }

  // --- The check of the local object store

  /** The elements of a relative path after the lexical simplification of path cleaning. */
  function Resolve(done: seq<string>, segments: seq<string>): seq<string>
    decreases |segments|
  {
    if |segments| == 0 then done
    else if segments[0] == "" || segments[0] == "." then Resolve(done, segments[1..])
    else if segments[0] == ".." && |done| > 0 && done[|done| - 1] != ".." then
      Resolve(done[..|done| - 1], segments[1..])
    else Resolve(done + [segments[0]], segments[1..])
  }

  function CleanPath(key: string): string {
    var segments := Resolve([], Split(key));
    if |segments| == 0 then "." else Join(segments)
  }

  lemma {:induction false} ResolveKeeps(done: seq<string>, segments: seq<string>)
    requires AllValid(segments)
    ensures Resolve(done, segments) == done + segments
    decreases |segments|
  {
    if |segments| > 0 {
      assert segments[0] != "" && segments[0] != "." && segments[0] != ".." by {
        assert ValidSegment(segments[0]);
      }
      ResolveKeeps(done + [segments[0]], segments[1..]);
    }
  }

  /** A key whose segments are all valid is left alone by path cleaning. */
  lemma ValidIsClean(key: string)
    requires AllValid(Split(key))
    ensures CleanPath(key) == key
  {
    JoinSplit(key);
    ResolveKeeps([], Split(key));
    assert [] + Split(key) == Split(key);
  }

  /** The key is made of at least three valid segments and a valid leaf of a random id and a name. */
  predicate Shape(key: string, front: seq<string>, id: string, name: string) {
    && |front| >= 3 && AllValid(front) && RandomId(id) && ValidSegment(name)
    && ValidSegment(id + "-" + name)
    && key == Join(front + [id + "-" + name])
  }

  /** What the check is for: the key has the form that storing an artifact gives it. */
  ghost predicate StoreGenerated(key: string) {
    exists front: seq<string>, id: string, name: string :: Shape(key, front, id, name)
  }

  predicate Generated(leaf: string) {
    |leaf| > 33 && leaf[32] == '-' && RandomId(leaf[..32]) && ValidSegment(leaf[33..])
  }

  lemma {:induction false} JoinHasNoSpecials(segments: seq<string>, i: nat)
    requires AllValid(segments) && i < |Join(segments)|
    ensures Inner(Join(segments)[i]) || Join(segments)[i] == '/'
    decreases |segments|
  {
    if |segments| > 1 {
      var rest := Join(segments[1..]);
      var n := |segments[0]|;
      assert Join(segments) == segments[0] + ("/" + rest);
      if i > n {
        JoinHasNoSpecials(segments[1..], i - n - 1);
      }
    }
  }

  lemma JoinStarts(segments: seq<string>)
    requires AllValid(segments) && |segments| > 0
    ensures |Join(segments)| > 0 && Join(segments)[0] != '/'
  {
    assert ValidSegment(segments[0]);
  }

  lemma GeneratedSplits(key: string)
    requires StoreGenerated(key)
    ensures var s := Split(key); |s| >= 4 && AllValid(s) && Generated(s[|s| - 1])
  {
    var front: seq<string>, id: string, name: string :| Shape(key, front, id, name);
    var leaf := id + "-" + name;
    var segments := front + [leaf];
    forall i | 0 <= i < |segments|
      ensures ValidSegment(segments[i]) && SlashFree(segments[i])
    {
      if i < |front| {
        assert segments[i] == front[i];
      }
      ValidIsSlashFree(segments[i]);
    }
    SplitJoin(segments);
    assert leaf[..32] == id && leaf[33..] == name;
  }

  lemma SplitIsGenerated(key: string)
    requires var s := Split(key); |s| >= 4 && AllValid(s) && Generated(s[|s| - 1])
    ensures StoreGenerated(key)
  {
    JoinSplit(key);
    var s := Split(key);
    hide Split, Join, ValidSegment, RandomId;
    var front, leaf := s[..|s| - 1], s[|s| - 1];
    var id, name := leaf[..32], leaf[33..];
    assert id + "-" + name == leaf;
    assert s == front + [id + "-" + name];
    assert Shape(key, front, id, name);
  }

  method AllSegmentsValid(segments: seq<string>) returns (ok: bool)
    ensures ok <==> AllValid(segments)
  {
    for i := 0 to |segments|
      invariant forall j :: 0 <= j < i ==> ValidSegment(segments[j])
    {
      if !ValidSegment(segments[i]) {
        return false;
      }
    }
    return true;
  }

  method AllHex(s: string) returns (ok: bool)
    ensures ok <==> forall i :: 0 <= i < |s| ==> Hex(s[i])
  {
    for i := 0 to |s|
      invariant forall j :: 0 <= j < i ==> Hex(s[j])
    {
      if (s[i] < '0' || s[i] > '9') && (s[i] < 'a' || s[i] > 'f') {
        return false;
      }
    }
    return true;
  }

  predicate Plain(key: string) {
    key != "" && key[0] != '/' && forall i :: 0 <= i < |key| ==> key[i] != '\\' && key[i] != '\0'
  }

  lemma GeneratedIsPlain(key: string)
    requires StoreGenerated(key)
    ensures Plain(key) && CleanPath(key) == key
  {
    GeneratedSplits(key);
    JoinSplit(key);
    ValidIsClean(key);
    JoinStarts(Split(key));
    forall i | 0 <= i < |key|
      ensures key[i] != '\\' && key[i] != '\0'
    {
      JoinHasNoSpecials(Split(key), i);
    }
  }

  /** validateObjectKey accepts exactly the keys of the stored form. */
  method ValidateObjectKey(key: string) returns (ok: bool)
    ensures ok <==> StoreGenerated(key)
  {
    if StoreGenerated(key) {
      GeneratedIsPlain(key);
      GeneratedSplits(key);
    }
    if !Plain(key) || CleanPath(key) != key {
      return false;
    }
    var segments := Split(key);
    ok := AllSegmentsValid(segments);
    if !ok || |segments| < 4 {
      return false;
    }
    var leaf := segments[|segments| - 1];
    if |leaf| <= 33 || leaf[32] != '-' {
      return false;
    }
    ok := AllHex(leaf[..32]);
    if !ok || !ValidSegment(leaf[33..]) {
      return false;
    }
    SplitIsGenerated(key);
  }

  // --- Which stored keys the local store accepts

  /** The prefix is empty or itself made of valid segments. */
  predicate ValidPrefix(prefix: string) {
    prefix == "" || AllValid(Split(prefix))
  }

  lemma {:induction false} JoinAppends(a: seq<string>, b: seq<string>)
    requires |a| > 0 && |b| > 0
    ensures Join(a + b) == Join(a) + "/" + Join(b)
  {
    if |a| == 1 {
      assert a == [a[0]];
      JoinCons(a[0], b);
    } else {
      JoinAppends(a[1..], b);
      assert a + b == [a[0]] + (a[1..] + b);
      JoinCons(a[0], a[1..] + b);
      assert a == [a[0]] + a[1..];
      JoinCons(a[0], a[1..]);
    }
  }

  function Front(prefix: string, o: Owner): seq<string> {
    (if prefix == "" then [] else Split(prefix)) + [o.organization, o.project, o.run]
  }

  lemma KeyIsJoined(prefix: string, o: Owner, id: string, name: string)
    requires ValidOwner(o)
    ensures Key(prefix, o, id, name) == Join(Front(prefix, o) + [id + "-" + name])
  {
    var leaf := id + "-" + name;
    var values := [o.organization, o.project, o.run, leaf];
    assert [prefix] + values == [prefix, o.organization, o.project, o.run, leaf];
    LedJoin(prefix, values);
    if prefix == "" {
      assert Front(prefix, o) + [leaf] == values;
    } else {
      JoinSplit(prefix);
      JoinAppends(Split(prefix), values);
      assert Front(prefix, o) + [leaf] == Split(prefix) + values;
      assert Join(Split(prefix)) + "/" + Join(values) == prefix + "/" + Join(values);
    }
  }

  lemma LeafIsValid(id: string, name: string)
    requires RandomId(id) && ValidSegment(name)
    ensures ValidSegment(id + "-" + name) <==> |name| <= 95
  {
    var leaf := id + "-" + name;
    assert leaf[0] == id[0] && Hex(id[0]);
    forall i | 0 <= i < |leaf|
      ensures Inner(leaf[i])
    {
      if i < 32 {
        assert leaf[i] == id[i] && Hex(id[i]);
      } else if i > 32 {
        assert leaf[i] == name[i - 33];
      }
    }
  }

  /** What Put stores the local store accepts, exactly when the name has at most 95 characters. */
  lemma StoredKeyAccepted(prefix: string, o: Owner, id: string, name: string)
    requires PutKey(prefix, o, id, name).Some? && RandomId(id) && ValidPrefix(prefix)
    ensures StoreGenerated(PutKey(prefix, o, id, name).value) <==> |name| <= 95
  {
    var key, front, leaf := Key(prefix, o, id, name), Front(prefix, o), id + "-" + name;
    KeyIsJoined(prefix, o, id, name);
    LeafIsValid(id, name);
    assert AllValid(front);
    if |name| <= 95 {
      assert Shape(key, front, id, name);
    }
    if StoreGenerated(key) {
      GeneratedSplits(key);
      LeafIsSlashFree(id, name);
      forall i | 0 <= i < |front + [leaf]|
        ensures SlashFree((front + [leaf])[i])
      {
        if i < |front| {
          ValidIsSlashFree(front[i]);
        }
      }
      SplitJoin(front + [leaf]);
      assert Split(key)[|front|] == leaf;
    }
  }

  lemma LeafIsSlashFree(id: string, name: string)
    requires RandomId(id) && ValidSegment(name)
    ensures SlashFree(id + "-" + name)
  {
    assert forall i :: 0 <= i < |id| ==> Hex(id[i]);
  }
}
