/** The selection made by cleanup_old_policies (metta/rl/functions.py): the
    checkpoint names matching `policy_*.pt` are sorted, and all but the last
    `keep_last_n` of them are chosen for removal, with Python's slice
    semantics for `files[:-keep_last_n]`. */
module PolicyCleanup {

  /** Python's string order: lexicographic by code point, a proper prefix
      first. Paths of one directory compare by their final names. */
  predicate NameLe(a: string, b: string) {
    if |a| == 0 then true
    else if |b| == 0 then false
    else if a[0] != b[0] then a[0] < b[0]
    else NameLe(a[1..], b[1..])
  }

  lemma {:induction false} NameLeReflexive(a: string)
    ensures NameLe(a, a)
    decreases |a|
  {
    if |a| > 0 {
      NameLeReflexive(a[1..]);
    }
  }

  lemma {:induction false} NameLeTotal(a: string, b: string)
    ensures NameLe(a, b) || NameLe(b, a)
    decreases |a|
  {
    if |a| > 0 && |b| > 0 && a[0] == b[0] {
      NameLeTotal(a[1..], b[1..]);
    }
  }

  lemma {:induction false} NameLeAntisymmetric(a: string, b: string)
    requires NameLe(a, b) && NameLe(b, a)
    ensures a == b
    decreases |a|
  {
    if |a| > 0 && |b| > 0 {
      NameLeAntisymmetric(a[1..], b[1..]);
      assert a == [a[0]] + a[1..] && b == [b[0]] + b[1..];
    }
  }

  lemma {:induction false} NameLeTransitive(a: string, b: string, c: string)
    requires NameLe(a, b) && NameLe(b, c)
    ensures NameLe(a, c)
    decreases |a|
  {
    if |a| > 0 && |b| > 0 && |c| > 0 && a[0] == b[0] && b[0] == c[0] {
      NameLeTransitive(a[1..], b[1..], c[1..]);
    }
  }

  /** The glob `policy_*.pt`: the fixed prefix and suffix around any text. */
  predicate IsPolicyFile(name: string) {
    |name| >= 10 && name[..7] == "policy_" && name[|name| - 3..] == ".pt"
  }

  /** The directory entries the glob yields, in listing order. */
  function PolicyFiles(listing: seq<string>): (r: seq<string>)
    ensures forall n | n in r :: IsPolicyFile(n) && n in listing
    ensures forall n | n in listing && IsPolicyFile(n) :: n in r
  {
    if |listing| == 0 then []
    else if IsPolicyFile(listing[0]) then [listing[0]] + PolicyFiles(listing[1..])
    else PolicyFiles(listing[1..])
  }

  predicate Sorted(s: seq<string>) {
    forall i, j | 0 <= i < j < |s| :: NameLe(s[i], s[j])
  }

  /** One insertion step of the sort. */
  function Insert(x: string, s: seq<string>): (r: seq<string>)
    requires Sorted(s)
    ensures Sorted(r)
    ensures multiset(r) == multiset(s) + multiset{x}
  {
    if |s| == 0 then [x]
    else if NameLe(x, s[0]) then
      InsertFront(x, s);
      [x] + s
    else
      NameLeTotal(x, s[0]);
      var rest := Insert(x, s[1..]);
      InsertBehind(s[0], s[1..], rest, x);
      assert s == [s[0]] + s[1..];
      [s[0]] + rest
  }

  lemma InsertFront(x: string, s: seq<string>)
    requires Sorted(s) && |s| > 0 && NameLe(x, s[0])
    ensures Sorted([x] + s)
  {
    forall j | 0 < j < |s| + 1 ensures NameLe(x, ([x] + s)[j]) {
      if j > 1 {
        NameLeTransitive(x, s[0], s[j - 1]);
      }
    }
  }

  lemma InsertBehind(h: string, t: seq<string>, rest: seq<string>, x: string)
    requires Sorted([h] + t) && Sorted(rest) && NameLe(h, x)
    requires multiset(rest) == multiset(t) + multiset{x}
    ensures Sorted([h] + rest)
  {
    forall j | 0 <= j < |rest| ensures NameLe(h, rest[j]) {
      assert rest[j] in multiset(rest);
      if rest[j] != x {
        assert rest[j] in multiset(t);
        var i :| 0 <= i < |t| && t[i] == rest[j];
        assert ([h] + t)[0] == h && ([h] + t)[i + 1] == t[i];
      }
    }
  }

  /** `sorted(...)` on names: an insertion sort. */
  function SortNames(s: seq<string>): (r: seq<string>)
    ensures Sorted(r)
    ensures multiset(r) == multiset(s)
  {
    if |s| == 0 then []
    else
      assert s == [s[0]] + s[1..];
      Insert(s[0], SortNames(s[1..]))
  }

  /** Any sort gives the same result: two sorted lists with the same names
      are equal, so the insertion sort is Python's `sorted`. */
  lemma {:induction false} SortedUnique(a: seq<string>, b: seq<string>)
    requires Sorted(a) && Sorted(b) && multiset(a) == multiset(b)
    ensures a == b
    decreases |a|
  {
    if |a| > 0 {
      assert |b| == |multiset(b)| == |multiset(a)| == |a|;
      SortedHeads(a, b);
      SameTails(a, b);
      assert a == [a[0]] + a[1..] && b == [b[0]] + b[1..];
      SortedTail(a);
      SortedTail(b);
      SortedUnique(a[1..], b[1..]);
    }
  }

  lemma SameTails(a: seq<string>, b: seq<string>)
    requires multiset(a) == multiset(b) && |a| > 0 && |b| > 0 && a[0] == b[0]
    ensures multiset(a[1..]) == multiset(b[1..])
  {
    assert a == [a[0]] + a[1..] && b == [b[0]] + b[1..];
    assert multiset(a) == multiset{a[0]} + multiset(a[1..]);
    assert multiset(b) == multiset{b[0]} + multiset(b[1..]);
    assert multiset(a[1..]) == multiset(a) - multiset{a[0]};
    assert multiset(b[1..]) == multiset(b) - multiset{b[0]};
  }

  lemma SortedTail(a: seq<string>)
    requires Sorted(a) && |a| > 0
    ensures Sorted(a[1..])
  {
    forall i, j | 0 <= i < j < |a| - 1 ensures NameLe(a[1..][i], a[1..][j]) {
      assert a[1..][i] == a[i + 1] && a[1..][j] == a[j + 1];
    }
  }

  /** Two sorted lists with the same names start with the same name. */
  lemma SortedHeads(a: seq<string>, b: seq<string>)
    requires Sorted(a) && Sorted(b) && multiset(a) == multiset(b) && |a| > 0 && |b| > 0
    ensures a[0] == b[0]
  {
    assert a[0] in multiset(b) && b[0] in multiset(a);
    var i :| 0 <= i < |b| && b[i] == a[0];
    var j :| 0 <= j < |a| && a[j] == b[0];
    if i == 0 { NameLeReflexive(b[0]); }
    if j == 0 { NameLeReflexive(a[0]); }
    NameLeAntisymmetric(a[0], b[0]);
  }

  /** The stop index a Python slice `xs[:stop]` uses on a list of length `n`. */
  function SliceStop(n: nat, stop: int): (r: nat)
    ensures r <= n
    ensures 0 <= stop <= n ==> r == stop
    ensures -(n as int) <= stop < 0 ==> r == n + stop
  {
    if stop < 0 then (if n + stop < 0 then 0 else n + stop)
    else if stop > n then n else stop
  }

  /** The files chosen for removal from the sorted list: `files[:-keep]`
      when there are more than `keep` of them, otherwise none. */
  function FilesToRemove(files: seq<string>, keepLastN: int): (r: seq<string>)
    ensures r <= files
  {
    if |files| > keepLastN then files[..SliceStop(|files|, -keepLastN)] else []
  }

  /** With a positive `keep_last_n` and more files than that, exactly the
      oldest `len - keep_last_n` are removed and the newest `keep_last_n`
      stay; with no more files than that, nothing is removed. */
  lemma RemovesAllButLast(files: seq<string>, keepLastN: int)
    requires keepLastN > 0
    ensures |files| > keepLastN ==> FilesToRemove(files, keepLastN) + files[|files| - keepLastN..] == files
    ensures |files| > keepLastN ==> |FilesToRemove(files, keepLastN)| == |files| - keepLastN
    ensures |files| <= keepLastN ==> FilesToRemove(files, keepLastN) == []
  {
    if |files| > keepLastN {
      assert files[..|files| - keepLastN] + files[|files| - keepLastN..] == files;
    }
  }

  /** `files[:-0]` is `files[:0]`: a `keep_last_n` of zero removes nothing. */
  lemma KeepZeroRemovesNothing(files: seq<string>)
    ensures FilesToRemove(files, 0) == []
  {
  }

  /** A negative `keep_last_n` removes the first `-keep_last_n` files (or all). */
  lemma NegativeKeepRemovesPrefix(files: seq<string>, keepLastN: int)
    requires keepLastN < 0
    ensures |files| >= -keepLastN ==> FilesToRemove(files, keepLastN) == files[..-keepLastN]
    ensures |files| < -keepLastN ==> FilesToRemove(files, keepLastN) == files
  {
  }

  /** Every removed checkpoint sorts before every kept one. */
  lemma RemovedBeforeKept(listing: seq<string>, keepLastN: int)
    ensures var files := SortNames(PolicyFiles(listing));
            var removed := FilesToRemove(files, keepLastN);
            forall i, j | 0 <= i < |removed| <= j < |files| :: NameLe(removed[i], files[j])
  {
  }

  /** The selection of cleanup_old_policies from a directory listing. */
  function PoliciesToRemove(listing: seq<string>, keepLastN: int): (r: seq<string>)
    ensures forall n | n in r :: IsPolicyFile(n) && n in listing
    ensures r <= SortNames(PolicyFiles(listing))
  {
    var files := SortNames(PolicyFiles(listing));
    SameMembers(files, PolicyFiles(listing));
    FilesToRemove(files, keepLastN)
  }

  lemma SameMembers(a: seq<string>, b: seq<string>)
    requires multiset(a) == multiset(b)
    ensures forall n | n in a :: n in b
  {
    forall n | n in a ensures n in b {
      assert n in multiset(a);
    }
  }

  /** Three checkpoints and an unrelated file, keeping the newest two. */
  lemma PoliciesToRemoveExample(listing: seq<string>)
    requires listing == ["policy_b.pt", "notes.txt", "policy_a.pt", "policy_c.pt"]
    ensures PoliciesToRemove(listing, 2) == ["policy_a.pt"]
  {
    var files := ExampleSortNames(listing);
    assert PoliciesToRemove(listing, 2) == FilesToRemove(files, 2);
    ExampleSelect(files);
  }

  lemma ExampleSelect(files: seq<string>)
    requires files == ["policy_a.pt", "policy_b.pt", "policy_c.pt"]
    ensures FilesToRemove(files, 2) == ["policy_a.pt"]
  {
    assert SliceStop(3, -2) == 1;
    assert files[..1] == [files[0]];
  }

  lemma ExampleSortNames(listing: seq<string>) returns (files: seq<string>)
    requires listing == ["policy_b.pt", "notes.txt", "policy_a.pt", "policy_c.pt"]
    ensures files == SortNames(PolicyFiles(listing))
    ensures files == ["policy_a.pt", "policy_b.pt", "policy_c.pt"]
  {
    ExampleGlob(listing);
    files := ["policy_a.pt", "policy_b.pt", "policy_c.pt"];
    ExampleSorted(files);
    SwapFront(files[1], files[0], files[2]);
    SortedUnique(SortNames(PolicyFiles(listing)), files);
  }

  lemma SwapFront(x: string, y: string, z: string)
    ensures multiset([x, y, z]) == multiset([y, x, z])
  {
    assert [x, y, z] == [x] + [y] + [z] && [y, x, z] == [y] + [x] + [z];
  }

  lemma ExampleGlob(listing: seq<string>)
    requires listing == ["policy_b.pt", "notes.txt", "policy_a.pt", "policy_c.pt"]
    ensures PolicyFiles(listing) == ["policy_b.pt", "policy_a.pt", "policy_c.pt"]
  {
    assert IsPolicyFile(listing[0]) && !IsPolicyFile(listing[1]);
    assert IsPolicyFile(listing[2]) && IsPolicyFile(listing[3]);
    assert PolicyFiles(listing[4..]) == [];
    assert listing[3..][1..] == listing[4..];
    assert PolicyFiles(listing[3..]) == [listing[3]];
    assert listing[2..][1..] == listing[3..];
    assert PolicyFiles(listing[2..]) == [listing[2], listing[3]];
    assert listing[1..][1..] == listing[2..];
    assert PolicyFiles(listing[1..]) == [listing[2], listing[3]];
  }

  lemma ExampleSorted(sorted: seq<string>)
    requires sorted == ["policy_a.pt", "policy_b.pt", "policy_c.pt"]
    ensures Sorted(sorted)
  {
    NameLeTail("policy_", "a.pt", "b.pt");
    NameLeTail("policy_", "b.pt", "c.pt");
    NameLeTransitive(sorted[0], sorted[1], sorted[2]);
  }

  /** Names with a common prefix compare by what follows it. */
  lemma {:induction false} NameLeTail(p: string, a: string, b: string)
    requires NameLe(a, b)
    ensures NameLe(p + a, p + b)
    decreases |p|
  {
    if |p| == 0 {
      assert p + a == a && p + b == b;
    } else {
      NameLeTail(p[1..], a, b);
      assert (p + a)[0] == p[0] == (p + b)[0];
      assert (p + a)[1..] == p[1..] + a && (p + b)[1..] == p[1..] + b;
    }
  }
}
