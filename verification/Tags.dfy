/**
  A tag map crosses two Workers as one string: host-vitals prints it
  (workers/host-vitals/src/index.js, collapseTags) and cicd-collector picks the
  mountpoint back out of it (workers/cicd-collector/src/vitals.js, mountpointOf).
*/
module Tags {
  import opened Prelude

  // ---- sorting ----

  predicate LexLe(a: string, b: string) {
    a == [] || (b != [] && (a[0] < b[0] || (a[0] == b[0] && LexLe(a[1..], b[1..]))))
  }

  /** a and b agree up to n, and there a ends or has the smaller character. */
  predicate SplitsAt(a: string, b: string, n: nat) {
    n <= |a| && n <= |b| && a[..n] == b[..n] && (n == |a| || (n < |b| && a[n] < b[n]))
  }

  /** a comes first in the dictionary, or is b. */
  ghost predicate InOrder(a: string, b: string) {
    exists n: nat :: SplitsAt(a, b, n)
  }

  lemma {:induction false} LexIsDictionaryOrder(a: string, b: string)
    ensures LexLe(a, b) <==> InOrder(a, b)
  {
    if a == [] {
      assert SplitsAt(a, b, 0);
    } else if b != [] {
      LexIsDictionaryOrder(a[1..], b[1..]);
      if a[0] < b[0] {
        assert SplitsAt(a, b, 0);
      }
      forall n: nat | 0 < n ensures SplitsAt(a, b, n) <==> a[0] == b[0] && SplitsAt(a[1..], b[1..], n - 1) {
        if n <= |a| && n <= |b| {
          assert a[..n] == [a[0]] + a[1..][..n - 1] && b[..n] == [b[0]] + b[1..][..n - 1];
        }
      }
      if a[0] == b[0] && LexLe(a[1..], b[1..]) {
        var n: nat :| SplitsAt(a[1..], b[1..], n);
        assert SplitsAt(a, b, n + 1);
      }
    }
  }

  lemma {:induction false} LexTotal(a: string, b: string)
    ensures LexLe(a, b) || LexLe(b, a)
    ensures LexLe(a, b) && LexLe(b, a) ==> a == b
  {
    if a != [] && b != [] && a[0] == b[0] {
      LexTotal(a[1..], b[1..]);
      assert a == [a[0]] + a[1..] && b == [b[0]] + b[1..];
    }
  }

  lemma {:induction false} LexTrans(a: string, b: string, c: string)
    requires LexLe(a, b) && LexLe(b, c)
    ensures LexLe(a, c)
  {
    if a != [] && a[0] == b[0] == c[0] {
      LexTrans(a[1..], b[1..], c[1..]);
    }
  }

  predicate Sorted(keys: seq<string>) {
    forall i, j :: 0 <= i < j < |keys| ==> LexLe(keys[i], keys[j])
  }

  function Insert(key: string, keys: seq<string>): seq<string> {
    if keys == [] || LexLe(key, keys[0]) then [key] + keys else [keys[0]] + Insert(key, keys[1..])
  }

  function Sort(keys: seq<string>): seq<string> {
    if keys == [] then [] else Insert(keys[0], Sort(keys[1..]))
  }

  lemma SortedCons(least: string, rest: seq<string>)
    requires Sorted(rest) && forall j :: 0 <= j < |rest| ==> LexLe(least, rest[j])
    ensures Sorted([least] + rest)
  {}

  lemma {:induction false} InsertSorts(key: string, keys: seq<string>)
    requires Sorted(keys)
    ensures Sorted(Insert(key, keys))
    ensures multiset(Insert(key, keys)) == multiset(keys) + multiset{key}
    ensures forall k :: k in Insert(key, keys) <==> k == key || k in keys
  {
    if keys == [] {
    } else if LexLe(key, keys[0]) {
      forall j | 0 <= j < |keys| ensures LexLe(key, keys[j]) {
        if j > 0 { LexTrans(key, keys[0], keys[j]); }
      }
    } else {
      LexTotal(key, keys[0]);
      InsertSorts(key, keys[1..]);
      var rest := Insert(key, keys[1..]);
      forall j | 0 <= j < |rest| ensures LexLe(keys[0], rest[j]) {
        assert rest[j] in rest;
        assert rest[j] == key || rest[j] in keys[1..];
      }
      SortedCons(keys[0], rest);
      assert keys == [keys[0]] + keys[1..];
    }
  }

  lemma {:induction false} SortSorts(keys: seq<string>)
    ensures Sorted(Sort(keys)) && multiset(Sort(keys)) == multiset(keys)
    ensures forall k :: k in Sort(keys) <==> k in keys
  {
    if keys != [] {
      SortSorts(keys[1..]);
      InsertSorts(keys[0], Sort(keys[1..]));
      assert keys == [keys[0]] + keys[1..];
    }
  }

  lemma HeadIsLeast(a: seq<string>, k: string)
    requires Sorted(a) && k in a
    ensures LexLe(a[0], k)
  {
    LexTotal(k, k);
  }

  lemma {:induction false} SortedIsUnique(a: seq<string>, b: seq<string>)
    requires Sorted(a) && Sorted(b) && multiset(a) == multiset(b)
    ensures a == b
  {
    assert |multiset(a)| == |a| && |multiset(b)| == |b|;
    if a != [] {
      assert a[0] in multiset(b) && b[0] in multiset(a);
      HeadIsLeast(a, b[0]);
      HeadIsLeast(b, a[0]);
      LexTotal(a[0], b[0]);
      TailsAgree(a, b);
      SortedIsUnique(a[1..], b[1..]);
      assert a == [a[0]] + a[1..] && b == [b[0]] + b[1..];
    }
  }

  lemma TailsAgree(a: seq<string>, b: seq<string>)
    requires a != [] && b != [] && a[0] == b[0] && multiset(a) == multiset(b)
    ensures multiset(a[1..]) == multiset(b[1..])
  {
    assert a == [a[0]] + a[1..] && b == [b[0]] + b[1..];
    assert multiset(a[1..]) == multiset(a) - multiset{a[0]};
    assert multiset(b[1..]) == multiset(b) - multiset{a[0]};
  }

  // ---- printing ----

  function Join(parts: seq<string>): string {
    if parts == [] then "" else if |parts| == 1 then parts[0] else parts[0] + "," + Join(parts[1..])
  }

  predicate Kept(key: string) {
    key != "host" && key != "collector"
  }

  function Keep(keys: seq<string>): seq<string> {
    if keys == [] then [] else (if Kept(keys[0]) then [keys[0]] else []) + Keep(keys[1..])
  }

  function Print(keys: seq<string>, tags: map<string, string>): seq<string>
    requires forall k :: k in keys ==> k in tags
  {
    seq(|keys|, i requires 0 <= i < |keys| => keys[i] + "=" + tags[keys[i]])
  }

  /** `keys` lists the map's keys in some insertion order. */
  ghost predicate Lists(keys: seq<string>, tags: map<string, string>) {
    (forall k :: k in keys <==> k in tags) && Distinct(keys)
  }

  lemma {:induction false} KeepKeeps(keys: seq<string>)
    ensures forall k :: k in Keep(keys) <==> k in keys && Kept(k)
    ensures Distinct(keys) ==> Distinct(Keep(keys))
  {
    if keys != [] {
      KeepKeeps(keys[1..]);
      assert forall k :: k in keys <==> k == keys[0] || k in keys[1..];
    }
  }

  function CollapseTags(keys: seq<string>, tags: map<string, string>): string
    requires forall k :: k in keys ==> k in tags
  {
    KeepKeeps(keys);
    SortSorts(Keep(keys));
    Join(Print(Sort(Keep(keys)), tags))
  }

  lemma StaysDistinct(a: seq<string>, b: seq<string>)
    requires Distinct(a) && multiset(a) == multiset(b)
    ensures Distinct(b)
  {
    forall i, j | 0 <= i < j < |b| ensures b[i] != b[j] {
      CountOnce(a, b[i]);
      assert b == b[..i] + [b[i]] + b[i + 1..j] + [b[j]] + b[j + 1..];
    }
  }

  /**
    The printed string: the tags other than host and collector, each once, as key=value
    joined by commas, with the keys in dictionary order.
  */
  lemma PrintsExactly(keys: seq<string>, tags: map<string, string>) returns (sorted: seq<string>, parts: seq<string>)
    requires Lists(keys, tags)
    ensures CollapseTags(keys, tags) == Join(parts) && |parts| == |sorted|
    ensures forall k :: k in sorted <==> k in tags && k != "host" && k != "collector"
    ensures forall i :: 0 <= i < |sorted| ==> sorted[i] in tags && parts[i] == sorted[i] + "=" + tags[sorted[i]]
    ensures Distinct(sorted)
    ensures forall i, j :: 0 <= i < j < |sorted| ==> InOrder(sorted[i], sorted[j])
  {
    KeepKeeps(keys);
    SortSorts(Keep(keys));
    sorted := Sort(Keep(keys));
    parts := Print(sorted, tags);
    StaysDistinct(Keep(keys), sorted);
    forall i, j | 0 <= i < j < |sorted| ensures InOrder(sorted[i], sorted[j]) {
      LexIsDictionaryOrder(sorted[i], sorted[j]);
    }
    forall i | 0 <= i < |sorted| ensures sorted[i] in tags && parts[i] == sorted[i] + "=" + tags[sorted[i]] {
      assert sorted[i] in sorted;
    }
  }

  lemma {:induction false} DistinctAreASet(a: seq<string>, b: seq<string>)
    requires forall k :: k in a <==> k in b
    requires Distinct(a) && Distinct(b)
    ensures multiset(a) == multiset(b)
  {
    forall k ensures multiset(a)[k] == multiset(b)[k] {
      CountOnce(a, k);
      CountOnce(b, k);
    }
  }

  lemma {:induction false} CountOnce(a: seq<string>, k: string)
    requires Distinct(a)
    ensures multiset(a)[k] == if k in a then 1 else 0
  {
    if a != [] {
      CountOnce(a[1..], k);
      assert a == [a[0]] + a[1..];
      assert a[0] !in a[1..];
    }
  }

  /** The printed form is canonical: insertion order does not show. */
  lemma OrderDoesNotShow(some: seq<string>, other: seq<string>, tags: map<string, string>)
    requires Lists(some, tags) && Lists(other, tags)
    ensures CollapseTags(some, tags) == CollapseTags(other, tags)
  {
    KeepKeeps(some);
    KeepKeeps(other);
    DistinctAreASet(Keep(some), Keep(other));
    SortSorts(Keep(some));
    SortSorts(Keep(other));
    SortedIsUnique(Sort(Keep(some)), Sort(Keep(other)));
  }

  // ---- reading back ----

  /** s.split(","): always at least one part. */
  function Split(s: string): (parts: seq<string>)
    ensures parts != []
  {
    if s == "" then [""]
    else if s[0] == ',' then [""] + Split(s[1..])
    else
      var rest := Split(s[1..]);
      [[s[0]] + rest[0]] + rest[1..]
  }

  lemma {:induction false} SplitPart(part: string, rest: string)
    requires ',' !in part
    ensures Split(part) == [part]
    ensures Split(part + "," + rest) == [part] + Split(rest)
  {
    if part != "" {
      SplitPart(part[1..], rest);
      assert (part + "," + rest)[1..] == part[1..] + "," + rest;
      assert part == [part[0]] + part[1..];
    } else {
      assert ("" + "," + rest)[1..] == rest;
    }
  }

  lemma {:induction false} SplitUndoesJoin(parts: seq<string>)
    requires parts != [] && forall p :: p in parts ==> ',' !in p
    ensures Split(Join(parts)) == parts
  {
    if |parts| == 1 {
      SplitPart(parts[0], "");
      assert parts == [parts[0]];
    } else {
      SplitPart(parts[0], Join(parts[1..]));
      SplitUndoesJoin(parts[1..]);
      assert parts == [parts[0]] + parts[1..];
    }
  }

  /** s.indexOf("="), or |s| where JavaScript answers -1. */
  function IndexOfEquals(s: string): (i: nat)
    ensures i <= |s| && '=' !in s[..i] && (i < |s| ==> s[i] == '=')
  {
    if s == "" || s[0] == '=' then 0 else 1 + IndexOfEquals(s[1..])
  }

  const MOUNTPOINT := "mountpoint"

  /** The value of a part `mountpoint=...`. */
  function MountIn(part: string): Option<string> {
    var i := IndexOfEquals(part);
    if 0 < i < |part| && part[..i] == MOUNTPOINT then Some(part[i + 1..]) else None
  }

  function FirstMount(parts: seq<string>): Option<string> {
    if parts == [] then None
    else if MountIn(parts[0]).Some? then MountIn(parts[0])
    else FirstMount(parts[1..])
  }

  lemma {:induction false} FirstEquals(key: string, value: string)
    requires '=' !in key
    ensures IndexOfEquals(key + "=" + value) == |key|
  {
    var s := key + "=" + value;
    if key != "" {
      FirstEquals(key[1..], value);
      assert s[1..] == key[1..] + "=" + value;
    }
  }

  lemma MountInPrinted(key: string, value: string)
    requires '=' !in key
    ensures MountIn(key + "=" + value) == if key == MOUNTPOINT then Some(value) else None
  {
    FirstEquals(key, value);
    var s := key + "=" + value;
    assert s[..|key|] == key && s[|key| + 1..] == value;
  }

  /** A part reads as a mountpoint exactly if it is `mountpoint=` and then that. */
  lemma MountInExactly(part: string, value: string)
    ensures MountIn(part) == Some(value) <==> part == "mountpoint=" + value
  {
    var i := IndexOfEquals(part);
    if MountIn(part) == Some(value) {
      assert part == part[..i] + "=" + part[i + 1..];
      assert "mountpoint" + "=" + value == "mountpoint=" + value;
    }
    if part == "mountpoint=" + value {
      assert part == "mountpoint" + "=" + value;
      MountInPrinted("mountpoint", value);
    }
  }

  /** The value of the first `mountpoint=` part. */
  ghost predicate IsMountOf(mount: Option<string>, parts: seq<string>) {
    match mount
    case None => forall p :: p in parts ==> MountIn(p).None?
    case Some(value) => exists k :: 0 <= k < |parts| && parts[k] == "mountpoint=" + value &&
                          forall j :: 0 <= j < k ==> MountIn(parts[j]).None?
  }

  method MountpointOf(tags: string) returns (mount: Option<string>)
    ensures mount == FirstMount(Split(tags))
    ensures IsMountOf(mount, Split(tags))
  {
    var parts := Split(tags);
    for k := 0 to |parts|
      invariant FirstMount(parts) == FirstMount(parts[k..])
      invariant forall j :: 0 <= j < k ==> MountIn(parts[j]).None?
    {
      var part := parts[k];
      assert parts[k..][0] == part && parts[k..][1..] == parts[k + 1..];
      var i := IndexOfEquals(part);
      if 0 < i < |part| && part[..i] == MOUNTPOINT {
        MountInExactly(part, part[i + 1..]);
        return Some(part[i + 1..]);
      }
    }
    mount := None;
  }

  lemma {:induction false} FirstMountFinds(keys: seq<string>, tags: map<string, string>)
    requires forall k :: k in keys ==> k in tags && '=' !in k
    ensures FirstMount(Print(keys, tags)) == if MOUNTPOINT in keys then Some(tags[MOUNTPOINT]) else None
  {
    if keys != [] {
      MountInPrinted(keys[0], tags[keys[0]]);
      FirstMountFinds(keys[1..], tags);
      assert Print(keys, tags)[1..] == Print(keys[1..], tags);
      assert forall k :: k in keys <==> k == keys[0] || k in keys[1..];
    }
  }

  /** Nothing in the printed tags can be mistaken for punctuation. */
  ghost predicate Plain(tags: map<string, string>) {
    forall k :: k in tags && Kept(k) ==> ',' !in k && '=' !in k && ',' !in tags[k]
  }

  /** What one Worker prints the other reads back: the mountpoint if there is one, and nothing else. */
  lemma MountpointRoundTrip(keys: seq<string>, tags: map<string, string>)
    requires Lists(keys, tags) && Plain(tags)
    ensures FirstMount(Split(CollapseTags(keys, tags))) ==
            if "mountpoint" in tags then Some(tags["mountpoint"]) else None
  {
    KeepKeeps(keys);
    SortSorts(Keep(keys));
    var sorted := Sort(Keep(keys));
    var parts := Print(sorted, tags);
    FirstMountFinds(sorted, tags);
    if parts == [] {
      assert sorted == [];
      assert Split("") == [""] && MountIn("") == None;
      assert FirstMount([""]) == FirstMount([""][1..]);
      assert Kept(MOUNTPOINT);
    } else {
      forall p | p in parts ensures ',' !in p {
        var i :| 0 <= i < |parts| && parts[i] == p;
        assert sorted[i] in sorted;
      }
      SplitUndoesJoin(parts);
      assert Kept(MOUNTPOINT);
    }
  }

  // ---- commas ----

  lemma {:induction false} SplitConcat(a: string, b: string)
    ensures Split(a + "," + b) == Split(a) + Split(b)
  {
    if a == "" {
      assert "" + "," + b == [','] + b;
    } else {
      var rest := a[1..] + "," + b;
      assert a + "," + b == [a[0]] + rest && a == [a[0]] + a[1..];
      SplitConcat(a[1..], b);
      SplitStep(a[0], rest);
      SplitStep(a[0], a[1..]);
      if a[0] == ',' {
        Associate([""], Split(a[1..]), Split(b));
      } else {
        HeadGrows(a[0], Split(a[1..]), Split(b));
      }
    }
  }

  lemma SplitStep(c: char, s: string)
    ensures Split([c] + s) == if c == ',' then [""] + Split(s) else [[c] + Split(s)[0]] + Split(s)[1..]
  {
    assert ([c] + s)[1..] == s;
  }

  lemma HeadGrows(c: char, parts: seq<string>, more: seq<string>)
    requires parts != []
    ensures [[c] + (parts + more)[0]] + (parts + more)[1..] == ([[c] + parts[0]] + parts[1..]) + more
  {
    assert (parts + more)[1..] == parts[1..] + more;
  }

  lemma {:induction false} SplitPrefix(prefix: string, s: string)
    requires ',' !in prefix
    ensures Split(prefix + s) == [prefix + Split(s)[0]] + Split(s)[1..]
  {
    var parts := Split(s);
    if prefix == "" {
      assert prefix + s == s && prefix + parts[0] == parts[0];
      assert parts == [parts[0]] + parts[1..];
    } else {
      SplitPrefix(prefix[1..], s);
      assert (prefix + s)[1..] == prefix[1..] + s;
      assert prefix + parts[0] == [prefix[0]] + (prefix[1..] + parts[0]);
    }
  }

  lemma {:induction false} SplitHasNoCommas(s: string)
    ensures forall p :: p in Split(s) ==> ',' !in p
    ensures Split(s)[0] == s <==> ',' !in s
  {
    if s != "" {
      SplitHasNoCommas(s[1..]);
      assert s == [s[0]] + s[1..];
    }
  }

  lemma {:induction false} FirstMountConcat(a: seq<string>, b: seq<string>)
    ensures FirstMount(a + b) == if FirstMount(a).Some? then FirstMount(a) else FirstMount(b)
  {
    if a == [] {
      assert a + b == b;
    } else {
      assert (a + b)[1..] == a[1..] + b;
      FirstMountConcat(a[1..], b);
    }
  }

  lemma {:induction false} MountsHaveNoCommas(parts: seq<string>)
    requires forall p :: p in parts ==> ',' !in p
    ensures FirstMount(parts).Some? ==> ',' !in FirstMount(parts).value
  {
    if parts != [] {
      assert forall p :: p in parts[1..] ==> p in parts;
      assert parts[0] in parts;
      MountsHaveNoCommas(parts[1..]);
    }
  }

  /** What a part reads as on its own. */
  function Reading(part: string): Option<string> {
    FirstMount(Split(part))
  }

  function FirstReading(parts: seq<string>): Option<string> {
    if parts == [] then None
    else if Reading(parts[0]).Some? then Reading(parts[0])
    else FirstReading(parts[1..])
  }

  /** Whatever the parts hold, the joined string reads as the first of them that reads as anything. */
  lemma {:induction false} ReadsPartwise(parts: seq<string>)
    ensures Reading(Join(parts)) == FirstReading(parts)
  {
    if parts == [] {
      assert Split("") == [""] && MountIn("") == None;
      assert FirstMount([""]) == FirstMount([""][1..]);
    } else if |parts| > 1 {
      SplitConcat(parts[0], Join(parts[1..]));
      FirstMountConcat(Split(parts[0]), Split(Join(parts[1..])));
      ReadsPartwise(parts[1..]);
    } else {
      assert parts[1..] == [];
    }
  }

  /** The mountpoint that a value makes up: one of its parts after the first comma. */
  function Invented(value: string): Option<string> {
    FirstMount(Split(value)[1..])
  }

  lemma ReadingOfTag(key: string, value: string)
    requires ',' !in key && '=' !in key
    ensures Reading(key + "=" + value) == if key == MOUNTPOINT then Some(Split(value)[0]) else Invented(value)
  {
    var first, rest := Split(value)[0], Split(value)[1..];
    SplitPrefix(key + "=", value);
    var part := key + "=" + first;
    assert Split(key + "=" + value) == [part] + rest;
    assert ([part] + rest)[1..] == rest;
    MountInPrinted(key, first);
  }

  lemma {:induction false} FirstReadingIs(parts: seq<string>)
    ensures FirstReading(parts).None? ==> forall i :: 0 <= i < |parts| ==> Reading(parts[i]).None?
    ensures FirstReading(parts).Some? ==>
              exists i :: 0 <= i < |parts| && IsFirst(parts, i) && Reading(parts[i]) == FirstReading(parts)
  {
    if parts != [] {
      if Reading(parts[0]).Some? {
        assert IsFirst(parts, 0);
      } else {
        FirstReadingIs(parts[1..]);
        if FirstReading(parts).Some? {
          var i :| 0 <= i < |parts[1..]| && IsFirst(parts[1..], i) && Reading(parts[1..][i]) == FirstReading(parts);
          assert forall j :: 0 < j <= i ==> parts[j] == parts[1..][j - 1];
          assert IsFirst(parts, i + 1);
        } else {
          assert forall j :: 0 < j < |parts| ==> parts[j] == parts[1..][j - 1];
        }
      }
    }
  }

  predicate IsFirst(parts: seq<string>, i: nat)
    requires i < |parts|
  {
    Reading(parts[i]).Some? && forall j :: 0 <= j < i ==> Reading(parts[j]).None?
  }

  predicate Before(a: string, b: string) {
    a != b && LexLe(a, b)
  }

  /** No key of a printed tag can be mistaken for punctuation; values may hold anything. */
  ghost predicate PlainKeys(tags: map<string, string>) {
    forall k :: k in tags && Kept(k) ==> ',' !in k && '=' !in k
  }

  /**
    Without a mountpoint, no value makes one up. With one, its value has no comma, and
    every tag printed before it that makes up another one comes after a tag that makes
    up the very same.
  */
  ghost predicate Unambiguous(tags: map<string, string>) {
    if MOUNTPOINT in tags then
      && ',' !in tags[MOUNTPOINT]
      && forall k :: k in tags && Kept(k) && Before(k, MOUNTPOINT) && Misleads(tags, k) ==> Excused(tags, k)
    else
      forall k :: k in tags && Kept(k) ==> Invented(tags[k]).None?
  }

  /** A tag printed before k that makes up the right mountpoint. */
  predicate Vouches(tags: map<string, string>, same: string, k: string)
    requires MOUNTPOINT in tags
  {
    same in tags && Kept(same) && Before(same, k) && Invented(tags[same]) == Some(tags[MOUNTPOINT])
  }

  ghost predicate Excused(tags: map<string, string>, k: string)
    requires MOUNTPOINT in tags
  {
    exists same :: Vouches(tags, same, k)
  }

  predicate Misleads(tags: map<string, string>, k: string)
    requires k in tags && MOUNTPOINT in tags
  {
    Invented(tags[k]).Some? && Invented(tags[k]) != Some(tags[MOUNTPOINT])
  }

  /** The printed tags, in order, with what each reads as. */
  lemma PrintedReadings(keys: seq<string>, tags: map<string, string>) returns (sorted: seq<string>)
    requires Lists(keys, tags) && PlainKeys(tags)
    ensures Sorted(sorted) && forall k :: k in sorted <==> k in tags && Kept(k)
    ensures Reading(CollapseTags(keys, tags)) == FirstReading(Print(sorted, tags))
    ensures forall i :: 0 <= i < |sorted| ==>
              Reading(Print(sorted, tags)[i]) ==
              if sorted[i] == MOUNTPOINT then Some(Split(tags[sorted[i]])[0]) else Invented(tags[sorted[i]])
  {
    KeepKeeps(keys);
    SortSorts(Keep(keys));
    sorted := Sort(Keep(keys));
    ReadsPartwise(Print(sorted, tags));
    forall i | 0 <= i < |sorted|
      ensures Reading(Print(sorted, tags)[i]) ==
              if sorted[i] == MOUNTPOINT then Some(Split(tags[sorted[i]])[0]) else Invented(tags[sorted[i]])
    {
      assert sorted[i] in sorted;
      ReadingOfTag(sorted[i], tags[sorted[i]]);
    }
  }

  /**
    For tag maps with plain keys and any values: the other Worker reads back the
    mountpoint, or nothing where there is none, if and only if the values are
    unambiguous.
  */
  lemma MountpointReadExactly(keys: seq<string>, tags: map<string, string>)
    requires Lists(keys, tags) && PlainKeys(tags)
    ensures Reading(CollapseTags(keys, tags)) == (if MOUNTPOINT in tags then Some(tags[MOUNTPOINT]) else None)
       <==> Unambiguous(tags)
  {
    var sorted := PrintedReadings(keys, tags);
    var parts := Print(sorted, tags);
    assert Kept(MOUNTPOINT);
    FirstReadingIs(parts);
    if MOUNTPOINT !in tags {
      NothingReads(sorted, tags);
    } else {
      var m :| 0 <= m < |sorted| && sorted[m] == MOUNTPOINT;
      assert Reading(parts[m]).Some?;
      var i :| 0 <= i < |parts| && IsFirst(parts, i) && Reading(parts[i]) == FirstReading(parts);
      SplitHasNoCommas(tags[MOUNTPOINT]);
      if Reading(parts[i]) == Some(tags[MOUNTPOINT]) {
        RightReadingIsUnambiguous(sorted, tags, i);
      } else {
        WrongReadingIsAmbiguous(sorted, tags, i, m);
      }
    }
  }

  lemma NothingReads(sorted: seq<string>, tags: map<string, string>)
    requires MOUNTPOINT !in tags && forall k :: k in sorted <==> k in tags && Kept(k)
    requires forall i :: 0 <= i < |sorted| ==> Reading(Print(sorted, tags)[i]) == Invented(tags[sorted[i]])
    ensures FirstReading(Print(sorted, tags)).None? <==> Unambiguous(tags)
  {
    var parts := Print(sorted, tags);
    FirstReadingIs(parts);
    if FirstReading(parts).Some? {
      var i :| 0 <= i < |parts| && IsFirst(parts, i) && Reading(parts[i]) == FirstReading(parts);
      assert sorted[i] in sorted;
    } else {
      forall k | k in tags && Kept(k) ensures Invented(tags[k]).None? {
        var i :| 0 <= i < |sorted| && sorted[i] == k;
        assert Reading(parts[i]).None?;
      }
    }
  }

  /** `sorted` and what its tags read as, from PrintedReadings. */
  ghost predicate Readings(sorted: seq<string>, tags: map<string, string>) {
    && Sorted(sorted) && (forall k :: k in sorted <==> k in tags && Kept(k))
    && forall i :: 0 <= i < |sorted| ==>
         Reading(Print(sorted, tags)[i]) ==
         if sorted[i] == MOUNTPOINT then Some(Split(tags[sorted[i]])[0]) else Invented(tags[sorted[i]])
  }

  lemma RightReadingIsUnambiguous(sorted: seq<string>, tags: map<string, string>, i: nat)
    requires Readings(sorted, tags) && MOUNTPOINT in tags
    requires i < |sorted| && IsFirst(Print(sorted, tags), i) &&
          Reading(Print(sorted, tags)[i]) == Some(tags[MOUNTPOINT])
    ensures Unambiguous(tags)
  {
    var parts := Print(sorted, tags);
    SplitHasNoCommas(parts[i]);
    MountsHaveNoCommas(Split(parts[i]));
    forall k | k in tags && Kept(k) && Before(k, MOUNTPOINT) && Misleads(tags, k)
      ensures Excused(tags, k)
    {
      var j :| 0 <= j < |sorted| && sorted[j] == k;
      assert Reading(parts[j]).Some? && j > i;
      assert sorted[i] in sorted;
      if sorted[i] == MOUNTPOINT {
        LexTotal(k, MOUNTPOINT);
      }
      assert Vouches(tags, sorted[i], k);
    }
  }

  lemma WrongReadingIsAmbiguous(sorted: seq<string>, tags: map<string, string>, i: nat, m: nat)
    requires Readings(sorted, tags) && MOUNTPOINT in tags
    requires i < |sorted| && IsFirst(Print(sorted, tags), i) &&
          Reading(Print(sorted, tags)[i]) != Some(tags[MOUNTPOINT])
    requires m < |sorted| && sorted[m] == MOUNTPOINT
    ensures !Unambiguous(tags)
  {
    var parts, k := Print(sorted, tags), sorted[i];
    SplitHasNoCommas(tags[MOUNTPOINT]);
    assert Reading(parts[m]).Some?;
    assert k in sorted;
    if k != MOUNTPOINT {
      assert i < m && Before(k, MOUNTPOINT);
      assert Misleads(tags, k) by { assert Reading(parts[i]) == Invented(tags[k]); }
      NotExcused(sorted, tags, i);
    }
  }

  lemma NotExcused(sorted: seq<string>, tags: map<string, string>, i: nat)
    requires Readings(sorted, tags) && MOUNTPOINT in tags
    requires i < |sorted| && IsFirst(Print(sorted, tags), i) && Before(sorted[i], MOUNTPOINT)
    ensures !Excused(tags, sorted[i])
  {
    forall same ensures !Vouches(tags, same, sorted[i]) {
      NothingVouches(sorted, tags, i, same);
    }
  }

  /** Tags printed before the first one that reads at all read as nothing. */
  lemma NothingVouches(sorted: seq<string>, tags: map<string, string>, i: nat, same: string)
    requires Readings(sorted, tags) && MOUNTPOINT in tags
    requires i < |sorted| && IsFirst(Print(sorted, tags), i) && Before(sorted[i], MOUNTPOINT)
    ensures !Vouches(tags, same, sorted[i])
  {
    if same in sorted && Before(same, sorted[i]) {
      var j :| 0 <= j < |sorted| && sorted[j] == same;
      LexTotal(same, sorted[i]);
      LexTotal(sorted[i], MOUNTPOINT);
      assert j < i && Reading(Print(sorted, tags)[j]).None?;
    }
  }

  /** A family that is not: a value with a comma can make up a mountpoint the map does not have. */
  lemma CommaInventsAMountpoint(key: string, value: string, mount: string)
    requires Kept(key) && key != MOUNTPOINT && '=' !in key && ',' !in key + value + mount
    ensures var tags := map[key := value + "," + MOUNTPOINT + "=" + mount];
            && Lists([key], tags) && MOUNTPOINT !in tags
            && FirstMount(Split(CollapseTags([key], tags))) == Some(mount)
  {
    var tags := map[key := value + "," + MOUNTPOINT + "=" + mount];
    assert Keep([key]) == [key];
    assert Sort([key]) == [key];
    var one, two := key + "=" + value, MOUNTPOINT + "=" + mount;
    assert CollapseTags([key], tags) == one + "," + two;
    forall c | c in one || c in two ensures c != ',' {
      assert c in key + value + mount || c in "mountpoint=";
    }
    SplitPart(one, two);
    SplitPart(two, "");
    MountInPrinted(key, value);
    MountInPrinted(MOUNTPOINT, mount);
    assert ([one] + [two])[1..] == [two];
  }
}
