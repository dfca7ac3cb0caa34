/** The bookkeeping of the list of known comparator names: de-duplicating appends,
    and the choice of the predefined comparators that are installed. */
module EngineLists {

  /** `if x not in list: list.append(x)`. */
  function AddIfAbsent(list: seq<string>, x: string): (r: seq<string>)
    ensures x in r && list <= r && |r| <= |list| + 1
  {
    if x in list then list else list + [x]
  }

  /** `AddIfAbsent` for each element of `xs`, first to last. */
  function AppendMissing(list: seq<string>, xs: seq<string>): (r: seq<string>)
    decreases |xs|
  {
    if xs == [] then list
    else AddIfAbsent(AppendMissing(list, xs[..|xs| - 1]), xs[|xs| - 1])
  }

  /** The elements of `candidates` that occur in `installed`, in the order of `candidates`. */
  function Installed(candidates: seq<string>, installed: seq<string>): (r: seq<string>)
    ensures |r| <= |candidates|
    decreases |candidates|
  {
    if candidates == [] then []
    else
      var last := candidates[|candidates| - 1];
      Installed(candidates[..|candidates| - 1], installed) + (if last in installed then [last] else [])
  }

  /** Exactly the candidates that are installed are chosen. */
  lemma {:induction false} InstalledMembers(candidates: seq<string>, installed: seq<string>, e: string)
    ensures e in Installed(candidates, installed) <==> e in candidates && e in installed
    decreases |candidates|
  {
    if candidates != [] {
      var init := candidates[..|candidates| - 1];
      var last := candidates[|candidates| - 1];
      assert candidates == init + [last];
      InstalledMembers(init, installed, e);
    }
  }

  predicate NoDuplicates(s: seq<string>)
  {
    forall i, j :: 0 <= i < j < |s| ==> s[i] != s[j]
  }

  lemma AppendMissingSnoc(list: seq<string>, xs: seq<string>, x: string)
    ensures AppendMissing(list, xs + [x]) == AddIfAbsent(AppendMissing(list, xs), x)
  {
    assert (xs + [x])[..|xs|] == xs;
  }

  lemma InstalledSnoc(candidates: seq<string>, installed: seq<string>, x: string)
    ensures Installed(candidates + [x], installed)
         == Installed(candidates, installed) + (if x in installed then [x] else [])
  {
    assert (candidates + [x])[..|candidates|] == candidates;
  }

  /** One step of the start-up merge: taking one more candidate into account appends it
      when it is installed and missing, and changes nothing otherwise. */
  lemma InstalledMergeStep(start: seq<string>, candidates: seq<string>, installed: seq<string>, i: nat)
    requires i < |candidates|
    ensures var before := AppendMissing(start, Installed(candidates[..i], installed));
      AppendMissing(start, Installed(candidates[..i + 1], installed))
      == if candidates[i] in installed then AddIfAbsent(before, candidates[i]) else before
  {
    var x := candidates[i];
    assert candidates[..i + 1] == candidates[..i] + [x];
    InstalledSnoc(candidates[..i], installed, x);
    AppendMissingSnoc(start, Installed(candidates[..i], installed), x);
    assert Installed(candidates[..i], installed) + [] == Installed(candidates[..i], installed);
  }

  /** Appending the missing names only extends the list: the old list is a prefix, every
      name of `xs` is then present, at most `|xs|` names are added and each of them is a
      name of `xs` that was not there before. */
  lemma {:induction false} AppendMissingGrows(list: seq<string>, xs: seq<string>)
    ensures var r := AppendMissing(list, xs);
      && list <= r
      && |r| <= |list| + |xs|
      && (forall e :: e in r <==> e in list || e in xs)
      && (forall k :: |list| <= k < |r| ==> r[k] in xs && r[k] !in list)
    decreases |xs|
  {
    if xs != [] {
      var init := xs[..|xs| - 1];
      var last := xs[|xs| - 1];
      assert xs == init + [last];
      AppendMissingGrows(list, init);
      var m := AppendMissing(list, init);
      var r := AddIfAbsent(m, last);
      assert forall e :: e in xs <==> e in init || e == last;
      forall k | |list| <= k < |r|
        ensures r[k] in xs && r[k] !in list
      {
        if k < |m| {
          assert r[k] == m[k];
        }
      }
    }
  }

  /** Appending only missing names keeps a list free of duplicates, also when one name
      occurs several times in `xs`. */
  lemma {:induction false} AppendMissingNoDuplicates(list: seq<string>, xs: seq<string>)
    requires NoDuplicates(list)
    ensures NoDuplicates(AppendMissing(list, xs))
    decreases |xs|
  {
    if xs != [] {
      var init := xs[..|xs| - 1];
      AppendMissingNoDuplicates(list, init);
    }
  }

  /** When every name of `xs` is present already, nothing is appended. */
  lemma {:induction false} AppendMissingPresent(list: seq<string>, xs: seq<string>)
    requires forall x :: x in xs ==> x in list
    ensures AppendMissing(list, xs) == list
    decreases |xs|
  {
    if xs != [] {
      var init := xs[..|xs| - 1];
      assert forall x :: x in init ==> x in xs;
      AppendMissingPresent(list, init);
      assert xs[|xs| - 1] in xs;
    }
  }

  /** Merging the same names a second time changes nothing. */
  lemma AppendMissingIdempotent(list: seq<string>, xs: seq<string>)
    ensures AppendMissing(AppendMissing(list, xs), xs) == AppendMissing(list, xs)
  {
    AppendMissingGrows(list, xs);
    AppendMissingPresent(AppendMissing(list, xs), xs);
  }
}
