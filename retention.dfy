/**
 * The retention sweep: list the storage directory, and for every file
 * whose modification time is more than the retention period ago, ask the
 * store to remove `directory + "/" + name`. The store's listing and remove
 * calls are given as their outcomes.
 */
module Retention {

  const SecondsPerHour := 3600

  /** An entry of the store's directory listing; `kind` is the entry type the store reports. */
  datatype StoredItem = StoredItem(name: string, kind: string, mtime: int)

  /** What the store's listing call did. */
  datatype Listing = Listed(items: seq<StoredItem>) | ListRaised

  /** What one remove call did: removed, refused (a false result), or raised. */
  datatype RemoveOutcome = Removed | NotRemoved | RemoveRaised

  /** The sweep's effects: the removes attempted and the ones that succeeded, in order, and whether it stopped on an exception. */
  datatype Sweep = Sweep(attempted: seq<string>, removed: seq<string>, aborted: bool)

  /** A listed entry is due for removal: a file, strictly older than the retention period at `now` (seconds). */
  predicate Expired(item: StoredItem, now: int, retentionHours: int)
  {
    item.kind == "file" && now - item.mtime > retentionHours * SecondsPerHour
  }

  /** The path the remove call is given. */
  function RemovePath(directory: string, name: string): string
  {
    directory + "/" + name
  }

  /** The paths of the expired entries of a listing, in listing order. */
  function ExpiredPaths(directory: string, items: seq<StoredItem>, now: int, retentionHours: int): (paths: seq<string>)
    ensures |paths| <= |items|
  {
    if items == [] then []
    else
      var init := items[..|items| - 1];
      var last := items[|items| - 1];
      assert items == init + [last];
      ExpiredPaths(directory, init, now, retentionHours)
        + (if Expired(last, now, retentionHours) then [RemovePath(directory, last.name)] else [])
  }

  /** The paths of `attempted` whose remove succeeded, in order. */
  function Succeeded(attempted: seq<string>, remove: string -> RemoveOutcome): (ok: seq<string>)
    ensures |ok| <= |attempted|
    ensures forall j :: 0 <= j < |ok| ==> ok[j] in attempted && remove(ok[j]) == Removed
    ensures forall p :: p in ok <==> p in attempted && remove(p) == Removed
  {
    if attempted == [] then []
    else
      var init := attempted[..|attempted| - 1];
      var last := attempted[|attempted| - 1];
      assert attempted == init + [last];
      Succeeded(init, remove) + (if remove(last) == Removed then [last] else [])
  }

  predicate IsPrefix<T(==)>(a: seq<T>, b: seq<T>)
  {
    |a| <= |b| && a == b[..|a|]
  }

  /** `a` is `b` with some elements left out, the rest kept in their order. */
  predicate IsSubsequence<T(==)>(a: seq<T>, b: seq<T>)
  {
    if a == [] then true
    else if b == [] then false
    else if a[|a| - 1] == b[|b| - 1] then IsSubsequence(a[..|a| - 1], b[..|b| - 1])
    else IsSubsequence(a, b[..|b| - 1])
  }

  /** The successful removes keep the order in which they were attempted. */
  lemma {:induction false} SucceededInOrder(attempted: seq<string>, remove: string -> RemoveOutcome)
    ensures IsSubsequence(Succeeded(attempted, remove), attempted)
  {
    if attempted != [] {
      var init := attempted[..|attempted| - 1];
      var last := attempted[|attempted| - 1];
      SucceededInOrder(init, remove);
      var ok := Succeeded(init, remove);
      assert attempted == init + [last];
      if remove(last) == Removed {
        assert (ok + [last])[..|ok|] == ok;
      } else {
        SubsequenceOfLonger(ok, init, last);
        assert Succeeded(attempted, remove) == ok;
      }
    }
  }

  /** A subsequence of `b` is a subsequence of `b` with one more element. */
  lemma {:induction false} SubsequenceOfLonger<T>(a: seq<T>, b: seq<T>, x: T)
    requires IsSubsequence(a, b)
    ensures IsSubsequence(a, b + [x])
    decreases |a| + |b|, 1
  {
    assert (b + [x])[..|b|] == b;
    if a != [] && a[|a| - 1] == x {
      SubsequenceDropLast(a, b);
    }
  }

  /** Leaving out the last element of a subsequence keeps it a subsequence. */
  lemma {:induction false} SubsequenceDropLast<T>(a: seq<T>, b: seq<T>)
    requires a != [] && IsSubsequence(a, b)
    ensures IsSubsequence(a[..|a| - 1], b)
    decreases |a| + |b|, 0
  {
    var a', b' := a[..|a| - 1], b[..|b| - 1];
    assert b' + [b[|b| - 1]] == b;
    if a[|a| - 1] == b[|b| - 1] {
      SubsequenceOfLonger(a', b', b[|b| - 1]);
    } else {
      SubsequenceDropLast(a, b');
      SubsequenceOfLonger(a', b', b[|b| - 1]);
    }
  }

  /** No remove of `paths` raised. */
  predicate NoneRaised(paths: seq<string>, remove: string -> RemoveOutcome)
  {
    paths == [] || (NoneRaised(paths[..|paths| - 1], remove) && remove(paths[|paths| - 1]) != RemoveRaised)
  }

  /** The same, path by path. */
  lemma {:induction false} NoneRaisedAt(paths: seq<string>, remove: string -> RemoveOutcome)
    ensures NoneRaised(paths, remove) <==> forall j :: 0 <= j < |paths| ==> remove(paths[j]) != RemoveRaised
  {
    if paths != [] {
      var init := paths[..|paths| - 1];
      NoneRaisedAt(init, remove);
      assert forall j :: 0 <= j < |init| ==> init[j] == paths[j];
    }
  }

  /**
   * One cleanup pass. A failed listing ends the pass before any remove;
   * otherwise the listed entries are swept.
   */
  method RemoveOldFiles(directory: string, retentionHours: int, now: int, listing: Listing, remove: string -> RemoveOutcome)
    returns (s: Sweep)
    ensures listing.ListRaised? ==> s == Sweep([], [], true)
    ensures listing.Listed? ==> SweepOf(directory, listing.items, now, retentionHours, remove, s)
  {
    if listing.ListRaised? {
      s := Sweep([], [], true);
    } else {
      s := SweepItems(directory, retentionHours, now, listing.items, remove);
    }
  }

  /**
   * What a sweep over a listing may do: attempt the expired paths in
   * listing order; a remove that reports failure is passed over, a remove
   * that raises ends the pass, so the attempts are the expired paths up to
   * and including the one that raised, or all of them.
   */
  predicate SweepOf(directory: string, items: seq<StoredItem>, now: int, retentionHours: int,
                    remove: string -> RemoveOutcome, s: Sweep)
  {
    var due := ExpiredPaths(directory, items, now, retentionHours);
    && IsPrefix(s.attempted, due)
    && (!s.aborted ==> s.attempted == due && NoneRaised(s.attempted, remove))
    && (s.aborted ==> |s.attempted| > 0 && remove(s.attempted[|s.attempted| - 1]) == RemoveRaised
                      && NoneRaised(s.attempted[..|s.attempted| - 1], remove))
    && s.removed == Succeeded(s.attempted, remove)
  }

  /** The loop over the listed entries. */
  method SweepItems(directory: string, retentionHours: int, now: int, items: seq<StoredItem>, remove: string -> RemoveOutcome)
    returns (s: Sweep)
    ensures SweepOf(directory, items, now, retentionHours, remove, s)
  {
    var attempted: seq<string> := [];
    var removed: seq<string> := [];
    var i := 0;
    while i < |items|
      invariant 0 <= i <= |items|
      invariant SweptUpTo(directory, items, now, retentionHours, remove, i, attempted, removed)
    {
      var item := items[i];
      ghost var before, gone := attempted, removed;
      if item.kind == "file" {
        var age := now - item.mtime;
        if age > retentionHours * SecondsPerHour {
          var path := directory + "/" + item.name;
          var outcome := remove(path);
          if outcome == RemoveRaised {
            SweepStopsAt(directory, items, now, retentionHours, remove, i, attempted, removed);
            return Sweep(attempted + [path], removed, true);
          }
          attempted := attempted + [path];
          if outcome == Removed {
            removed := removed + [path];
          }
        }
      }
      SweepStep(directory, items, now, retentionHours, remove, i, before, gone, attempted, removed);
      i := i + 1;
    }
    assert items[..i] == items;
    s := Sweep(attempted, removed, false);
    CompletedSweep(directory, items, now, retentionHours, remove, s);
  }

  /** The loop's bookkeeping after the first i listed entries. */
  predicate SweptUpTo(directory: string, items: seq<StoredItem>, now: int, retentionHours: int,
                      remove: string -> RemoveOutcome, i: nat, attempted: seq<string>, removed: seq<string>)
  {
    && i <= |items|
    && attempted == ExpiredPaths(directory, items[..i], now, retentionHours)
    && removed == Succeeded(attempted, remove)
    && NoneRaised(attempted, remove)
  }

  /** One listed entry that does not end the pass keeps the loop's bookkeeping. */
  lemma SweepStep(directory: string, items: seq<StoredItem>, now: int, retentionHours: int,
                  remove: string -> RemoveOutcome, i: nat, attempted: seq<string>, removed: seq<string>,
                  attempted': seq<string>, removed': seq<string>)
    requires i < |items| && SweptUpTo(directory, items, now, retentionHours, remove, i, attempted, removed)
    requires var path := RemovePath(directory, items[i].name);
      && (Expired(items[i], now, retentionHours) ==> remove(path) != RemoveRaised)
      && attempted' == attempted + (if Expired(items[i], now, retentionHours) then [path] else [])
      && removed' == removed + (if Expired(items[i], now, retentionHours) && remove(path) == Removed then [path] else [])
    ensures SweptUpTo(directory, items, now, retentionHours, remove, i + 1, attempted', removed')
  {
    ExpiredPathsStep(directory, items, now, retentionHours, i);
    if Expired(items[i], now, retentionHours) {
      SucceededStep(attempted, RemovePath(directory, items[i].name), remove);
    } else {
      assert attempted + [] == attempted;
      assert removed + [] == removed;
    }
  }

  /** A listed entry whose remove raises ends the pass in a state the sweep contract allows. */
  lemma SweepStopsAt(directory: string, items: seq<StoredItem>, now: int, retentionHours: int,
                     remove: string -> RemoveOutcome, i: nat, attempted: seq<string>, removed: seq<string>)
    requires i < |items| && SweptUpTo(directory, items, now, retentionHours, remove, i, attempted, removed)
    requires Expired(items[i], now, retentionHours) && remove(RemovePath(directory, items[i].name)) == RemoveRaised
    ensures SweepOf(directory, items, now, retentionHours, remove,
                    Sweep(attempted + [RemovePath(directory, items[i].name)], removed, true))
  {
    var path := RemovePath(directory, items[i].name);
    ExpiredPathsStep(directory, items, now, retentionHours, i);
    SucceededStep(attempted, path, remove);
    ExpiredPathsPrefix(directory, items, now, retentionHours, i + 1);
    AbortedSweep(directory, items, now, retentionHours, remove, i + 1, attempted, path, removed);
  }

  /** A pass that went through the whole listing ends in a state the sweep contract allows. */
  lemma CompletedSweep(directory: string, items: seq<StoredItem>, now: int, retentionHours: int,
                       remove: string -> RemoveOutcome, s: Sweep)
    requires s.attempted == ExpiredPaths(directory, items, now, retentionHours) && !s.aborted
    requires NoneRaised(s.attempted, remove) && s.removed == Succeeded(s.attempted, remove)
    ensures SweepOf(directory, items, now, retentionHours, remove, s)
  {
    assert s.attempted[..|s.attempted|] == s.attempted;
  }

  /** A raise ends the pass in a state the sweep contract allows. */
  lemma AbortedSweep(directory: string, items: seq<StoredItem>, now: int, retentionHours: int,
                     remove: string -> RemoveOutcome, i: nat, before: seq<string>, path: string, removed: seq<string>)
    requires i <= |items|
    requires before + [path] == ExpiredPaths(directory, items[..i], now, retentionHours)
    requires IsPrefix(before + [path], ExpiredPaths(directory, items, now, retentionHours))
    requires NoneRaised(before, remove) && remove(path) == RemoveRaised
    requires removed == Succeeded(before + [path], remove)
    ensures SweepOf(directory, items, now, retentionHours, remove, Sweep(before + [path], removed, true))
  {
    assert (before + [path])[..|before|] == before;
  }

  lemma SucceededStep(before: seq<string>, path: string, remove: string -> RemoveOutcome)
    ensures Succeeded(before + [path], remove) == Succeeded(before, remove) + (if remove(path) == Removed then [path] else [])
    ensures NoneRaised(before, remove) && remove(path) != RemoveRaised ==> NoneRaised(before + [path], remove)
  {
    assert (before + [path])[..|before|] == before;
  }

  /** One more listed entry adds its path to the expired paths exactly when it is expired. */
  lemma ExpiredPathsStep(directory: string, items: seq<StoredItem>, now: int, retentionHours: int, i: nat)
    requires i < |items|
    ensures ExpiredPaths(directory, items[..i + 1], now, retentionHours)
      == ExpiredPaths(directory, items[..i], now, retentionHours)
         + (if Expired(items[i], now, retentionHours) then [RemovePath(directory, items[i].name)] else [])
  {
    assert items[..i + 1][..i] == items[..i];
  }

  /** A path is removed by the sweep exactly when some listed file with that name is expired. */
  lemma {:induction false} ExpiredPathsMembers(directory: string, items: seq<StoredItem>, now: int, retentionHours: int)
    ensures forall p :: p in ExpiredPaths(directory, items, now, retentionHours) <==>
      exists it :: it in items && Expired(it, now, retentionHours) && p == RemovePath(directory, it.name)
  {
    if items != [] {
      var init := items[..|items| - 1];
      var last := items[|items| - 1];
      assert items == init + [last];
      ExpiredPathsMembers(directory, init, now, retentionHours);
    }
  }

  /** Listing a prefix of the entries gives a prefix of the expired paths. */
  lemma {:induction false} ExpiredPathsPrefix(directory: string, items: seq<StoredItem>, now: int, retentionHours: int, i: nat)
    requires i <= |items|
    ensures IsPrefix(ExpiredPaths(directory, items[..i], now, retentionHours), ExpiredPaths(directory, items, now, retentionHours))
    decreases |items| - i
  {
    if i < |items| {
      ExpiredPathsPrefix(directory, items, now, retentionHours, i + 1);
      assert items[..i + 1][..i] == items[..i];
    } else {
      assert items[..i] == items;
    }
  }

  /** The listing after a sweep: the entries whose path was not removed. */
  function Remaining(directory: string, items: seq<StoredItem>, gone: set<string>): (rest: seq<StoredItem>)
    ensures forall it :: it in rest ==> it in items && RemovePath(directory, it.name) !in gone
  {
    if items == [] then []
    else
      var init := items[..|items| - 1];
      var last := items[|items| - 1];
      Remaining(directory, init, gone) + (if RemovePath(directory, last.name) in gone then [] else [last])
  }

  /**
   * A second sweep at the same instant, over a listing from which every
   * path that was due is gone, finds nothing to remove.
   */
  lemma {:induction false} SecondSweepRemovesNothing(directory: string, items: seq<StoredItem>, now: int, retentionHours: int, gone: set<string>)
    requires forall p :: p in ExpiredPaths(directory, items, now, retentionHours) ==> p in gone
    ensures ExpiredPaths(directory, Remaining(directory, items, gone), now, retentionHours) == []
  {
    if items != [] {
      var init := items[..|items| - 1];
      var last := items[|items| - 1];
      var path := RemovePath(directory, last.name);
      ExpiredPathsExtend(directory, init, last, now, retentionHours);
      assert items == init + [last];
      SecondSweepRemovesNothing(directory, init, now, retentionHours, gone);
      var kept := Remaining(directory, init, gone);
      if path !in gone {
        assert Remaining(directory, items, gone) == kept + [last];
        ExpiredPathsExtend(directory, kept, last, now, retentionHours);
      } else {
        assert Remaining(directory, items, gone) == kept;
      }
    }
  }

  /**
   * A sweep that went through the whole listing with every remove
   * succeeding leaves a listing, at the same instant, with nothing due.
   */
  lemma SweepIsIdempotent(directory: string, items: seq<StoredItem>, now: int, retentionHours: int,
                          remove: string -> RemoveOutcome, s: Sweep)
    requires SweepOf(directory, items, now, retentionHours, remove, s) && !s.aborted
    requires forall p :: p in s.attempted ==> remove(p) == Removed
    ensures ExpiredPaths(directory, Remaining(directory, items, set p | p in s.removed), now, retentionHours) == []
  {
    SecondSweepRemovesNothing(directory, items, now, retentionHours, set p | p in s.removed);
  }

  /** The expired paths of a listing with one more entry at the end. */
  lemma ExpiredPathsExtend(directory: string, items: seq<StoredItem>, last: StoredItem, now: int, retentionHours: int)
    ensures ExpiredPaths(directory, items + [last], now, retentionHours)
      == ExpiredPaths(directory, items, now, retentionHours)
         + (if Expired(last, now, retentionHours) then [RemovePath(directory, last.name)] else [])
  {
    assert (items + [last])[..|items|] == items;
  }

  /**
   * An entry that is not a file is never removed, however old, in any
   * listing where no file entry shares its name.
   */
  lemma DirectoriesAreKept(directory: string, items: seq<StoredItem>, now: int, retentionHours: int, d: StoredItem)
    requires d in items && d.kind != "file"
    requires forall it :: it in items && it.kind == "file" ==> it.name != d.name
    ensures RemovePath(directory, d.name) !in ExpiredPaths(directory, items, now, retentionHours)
  {
    ExpiredPathsMembers(directory, items, now, retentionHours);
    forall it | it in items && Expired(it, now, retentionHours)
      ensures RemovePath(directory, it.name) != RemovePath(directory, d.name)
    {
      var n := |directory + "/"|;
      assert RemovePath(directory, it.name)[n..] == it.name;
      assert RemovePath(directory, d.name)[n..] == d.name;
    }
  }

  /** With a 24-hour retention period a file 25 hours old is removed and one 23 hours old is kept. */
  lemma DayRetentionScenario(now: int)
    ensures var old25 := StoredItem("a.jpg", "file", now - 25 * SecondsPerHour);
      var new23 := StoredItem("b.jpg", "file", now - 23 * SecondsPerHour);
      ExpiredPaths("/cams", [old25, new23], now, 24) == ["/cams/a.jpg"]
  {
    var old25 := StoredItem("a.jpg", "file", now - 25 * SecondsPerHour);
    var new23 := StoredItem("b.jpg", "file", now - 23 * SecondsPerHour);
    assert [old25, new23][..1] == [old25];
    assert RemovePath("/cams", "a.jpg") == "/cams/a.jpg";
    assert ExpiredPaths("/cams", [old25], now, 24) == ["/cams/a.jpg"] by {
      assert [old25][..0] == [];
    }
  }

}
