/** A compaction changes no answer at or above the oldest snapshot it was run with. */
module Invisibility {
  import opened Keys
  import opened Files
  import opened Plans
  import opened Compactions
  import opened Merging
  import opened Layers

  // ------------------------------------------------------------------ dropping entries in general

  /** A newer entry for the same user key is itself visible at `snapshot`. */
  ghost predicate Superseded(before: set<Entry>, snapshot: nat, e: Entry) {
    exists x :: x in before && x.key.user == e.key.user && e.key.sequence < x.key.sequence <= snapshot
  }

  /** A deletion with nothing older left to delete. */
  ghost predicate VainDeletion(after: set<Entry>, snapshot: nat, e: Entry) {
    && e.key.kind.Deletion? && e.key.sequence <= snapshot
    && forall x :: x in after && x.key.user == e.key.user ==> x.key.sequence > e.key.sequence
  }

  lemma DropsInvisible(before: set<Entry>, after: set<Entry>, snapshot: nat, k: UserKey, at: nat)
    requires Unambiguous(before) && after <= before
    requires forall e :: e in before && e !in after ==>
               Superseded(before, snapshot, e) || VainDeletion(after, snapshot, e)
    requires snapshot <= at
    ensures View(before, k, at) == View(after, k, at)
  {
    if AnyVisible(before, k, at) {
      var e := Newest(before, k, at);
      ViewOf(before, k, at, e);
      if e in after {
        ViewOf(after, k, at, e);
      } else {
        assert !Superseded(before, snapshot, e);
        assert VainDeletion(after, snapshot, e);
        assert !AnyVisible(after, k, at);
      }
    }
  }

  // ------------------------------------------------------------------ the entries that survive a merge

  lemma {:induction false} SurvivorIndex(v: Version, from: nat, snapshot: nat, input: seq<Entry>, n: nat, x: Entry)
    requires n <= |input|
    ensures x in Survivors(v, from, snapshot, input, n) <==>
            exists i :: 0 <= i < n && input[i] == x && !Dropped(v, from, snapshot, input, i)
  {
    hide Dropped;
    if n > 0 {
      SurvivorIndex(v, from, snapshot, input, n - 1, x);
      if x in Survivors(v, from, snapshot, input, n - 1) {
        var i :| 0 <= i < n - 1 && input[i] == x && !Dropped(v, from, snapshot, input, i);
        assert 0 <= i < n;
      }
    }
  }

  lemma {:induction false} SurvivorsSorted(v: Version, from: nat, snapshot: nat, input: seq<Entry>, n: nat)
    requires Sorted(input) && n <= |input|
    ensures Sorted(Survivors(v, from, snapshot, input, n))
  {
    hide Dropped;
    if n > 0 {
      SurvivorsSorted(v, from, snapshot, input, n - 1);
      var kept := Survivors(v, from, snapshot, input, n - 1);
      forall j | 0 <= j < |kept| ensures Less(kept[j].key, input[n - 1].key) {
        SurvivorIndex(v, from, snapshot, input, n - 1, kept[j]);
        assert kept[j] in kept;
      }
    }
  }

  /** `input` is what the merging iterator over the files yields. */
  ghost predicate MergedFrom(input: seq<Entry>, inputs: seq<File>) {
    && Sorted(input)
    && forall e :: e in input <==> InSome(inputs, e)
  }

  /** The output files hold the survivors, in order. */
  ghost predicate MergeResult(base: Version, p: Plan, snapshot: nat, input: seq<Entry>, outs: seq<File>) {
    && MergedFrom(input, p.in0 + p.in1)
    && AllValid(outs) && OutputsOrdered(outs)
    && forall e :: InSome(outs, e) <==> e in Survivors(base, p.level + 2, snapshot, input, |input|)
  }

  lemma ResultComesFrom(base: Version, p: Plan, snapshot: nat, input: seq<Entry>, outs: seq<File>)
    requires MergeResult(base, p, snapshot, input, outs)
    ensures ComesFrom(outs, p.in0 + p.in1)
  {
    hide Dropped, Survivors, AllValid, OutputsOrdered, Sorted;
    forall o, e | o in outs && e in o.entries
      ensures InSome(p.in0 + p.in1, e)
    {
      assert InSome(outs, e);
      SurvivorIndex(base, p.level + 2, snapshot, input, |input|, e);
    }
  }

  // ------------------------------------------------------------------ the two drop rules

  /** Rule (A): the entry is superseded. */
  lemma HiddenIsSuperseded(input: seq<Entry>, i: nat, snapshot: nat, all: set<Entry>)
    requires Sorted(input) && i < |input|
    requires Unambiguous(all) && ToSet(input) <= all
    requires HiddenBefore(input, i, snapshot)
    ensures Superseded(all, snapshot, input[i])
  {
    var j :| 0 <= j < i && input[j].key.user == input[i].key.user && input[j].key.sequence <= snapshot;
    assert input[j] in ToSet(input) && input[i] in ToSet(input);
    assert Less(input[j].key, input[i].key);
  }

  /** An entry that survives next to a dropped deletion of its user key is newer than the deletion. */
  lemma SurvivorNewer(v: Version, from: nat, snapshot: nat, input: seq<Entry>, i: nat, x: Entry, all: set<Entry>)
    requires Sorted(input) && i < |input|
    requires Unambiguous(all) && ToSet(input) <= all
    requires Obsolete(v, from, snapshot, input[i])
    requires x in Survivors(v, from, snapshot, input, |input|)
    requires x.key.user == input[i].key.user
    ensures x.key.sequence > input[i].key.sequence
  {
    hide CoveredBelow, Survivors;
    SurvivorIndex(v, from, snapshot, input, |input|, x);
    var j :| 0 <= j < |input| && input[j] == x && !Dropped(v, from, snapshot, input, j);
    assert input[j] in ToSet(input) && input[i] in ToSet(input);
    assert !HiddenBefore(input, j, snapshot);
    assert j < i;
    assert Less(input[j].key, input[i].key);
  }

  /** A file of the next level that was not an input is newer than the inputs, or has other keys. */
  lemma AsideNewer(h: File, f: File, inputs: seq<File>, all: set<Entry>)
    requires Aside(h, inputs) && f in inputs
    requires ValidFile(h) && ValidFile(f)
    requires Unambiguous(all) && ToSet(h.entries) <= all && ToSet(f.entries) <= all
    ensures FileNewer(h, f)
  {
    hide FileNewer, ValidFile, Unambiguous;
    if Less(h.largest, f.smallest) {
      EarlierNewer(h, f, all);
    } else {
      UserApartNewer(h, f);
    }
  }

  /** Base-level rule: after the merge nothing older than the dropped deletion is left for its key. */
  lemma ObsoleteIsVain(cur: Version, base: Version, p: Plan, snapshot: nat, input: seq<Entry>, outs: seq<File>,
                       cur': Version, f: File, i: nat)
    requires Layered(cur) && Unambiguous(VersionEntries(cur))
    requires Installable(cur, base, p) && Installed(cur, p, outs, cur')
    requires MergeResult(base, p, snapshot, input, outs)
    requires ToSet(input) <= VersionEntries(cur)
    requires f in p.in0 + p.in1 && i < |input| && input[i] in f.entries
    requires Obsolete(base, p.level + 2, snapshot, input[i])
    ensures VainDeletion(VersionEntries(cur'), snapshot, input[i])
  {
    hide Layered, Unambiguous, Installable, MergeResult, Ordered, Sorted, CoveredBelow;
    forall x | x in VersionEntries(cur') && x.key.user == input[i].key.user
      ensures x.key.sequence > input[i].key.sequence
    {
      var l: int, h: File :| 0 <= l < |cur'| && h in cur'[l] && x in h.entries;
      if l == p.level + 1 && h in outs {
        ResultSurvivor(base, p, snapshot, input, outs, h, x);
        SurvivorNewer(base, p.level + 2, snapshot, input, i, x, VersionEntries(cur));
      } else {
        RemainsNewer(cur, base, p, snapshot, input[i], f, l, h, x);
      }
    }
  }

  lemma ResultSurvivor(base: Version, p: Plan, snapshot: nat, input: seq<Entry>, outs: seq<File>, h: File, x: Entry)
    requires MergeResult(base, p, snapshot, input, outs)
    requires h in outs && x in h.entries
    ensures Sorted(input)
    ensures x in Survivors(base, p.level + 2, snapshot, input, |input|)
  {
    hide Survivors, Sorted, AllValid, OutputsOrdered;
    assert InSome(outs, x);
  }

  lemma RemainsNewer(cur: Version, base: Version, p: Plan, snapshot: nat, e: Entry, f: File, l: nat, h: File, x: Entry)
    requires Layered(cur) && Unambiguous(VersionEntries(cur))
    requires Installable(cur, base, p)
    requires f in p.in0 + p.in1 && e in f.entries
    requires Obsolete(base, p.level + 2, snapshot, e)
    requires l < NUM_LEVELS && h in cur[l] && (l == p.level ==> h !in p.in0) && (l == p.level + 1 ==> h !in p.in1)
    requires x in h.entries && x.key.user == e.key.user
    ensures x.key.sequence > e.key.sequence
  {
    hide Layered, Unambiguous, VersionEntries, Aside, FileNewer, RestNewer, NothingNewBelow, Obsolete, ValidFile;
    LayeredLevel(cur, l);
    if l <= p.level {
      ShallowerThanInputs(cur, base, p, l, h);
      NewerEntry(h, f, x, e);
    } else if l == p.level + 1 {
      InputsProper(cur, p);
      InputInVersion(cur, base, p, f);
      FileInVersion(cur, l, h);
      assert Aside(h, p.in0 + p.in1);
      AsideNewer(h, f, p.in0 + p.in1, VersionEntries(cur));
      NewerEntry(h, f, x, e);
    } else {
      OtherKeysBelow(cur, base, p, snapshot, e, f, l, h, x);
    }
  }

  lemma OtherKeysBelow(cur: Version, base: Version, p: Plan, snapshot: nat, e: Entry, f: File, l: nat, h: File,
                       x: Entry)
    requires NothingNewBelow(cur, base, p)
    requires f in p.in0 + p.in1 && e in f.entries
    requires Obsolete(base, p.level + 2, snapshot, e)
    requires p.level + 2 <= l < |cur| && h in cur[l] && ValidFile(h) && x in h.entries
    ensures x.key.user != e.key.user
  {
    EntriesInRange(h);
    assert !CoveredBelow(cur, p.level + 2, e.key.user);
    assert !Within(h, e.key.user);
  }

  lemma NewerEntry(h: File, f: File, x: Entry, e: Entry)
    requires FileNewer(h, f) && x in h.entries && e in f.entries && x.key.user == e.key.user
    ensures x.key.sequence > e.key.sequence
  {
  }

  lemma InputInVersion(cur: Version, base: Version, p: Plan, f: File)
    requires Installable(cur, base, p)
    requires f in p.in0 + p.in1
    ensures ToSet(f.entries) <= VersionEntries(cur)
  {
    hide VersionEntries, RestNewer, OthersAside, NothingNewBelow;
    if f in p.in0 {
      FileInVersion(cur, p.level, f);
    } else {
      FileInVersion(cur, p.level + 1, f);
    }
  }

  // ------------------------------------------------------------------ the theorem

  lemma InputEntriesInVersion(cur: Version, base: Version, p: Plan, input: seq<Entry>)
    requires Installable(cur, base, p)
    requires MergedFrom(input, p.in0 + p.in1)
    ensures ToSet(input) <= VersionEntries(cur)
  {
    hide VersionEntries, Installable, Sorted;
    forall e | e in ToSet(input) ensures e in VersionEntries(cur) {
      assert InSome(p.in0 + p.in1, e);
      var f :| f in p.in0 + p.in1 && e in f.entries;
      InputInVersion(cur, base, p, f);
      assert e in ToSet(f.entries);
    }
  }

  lemma InstalledShrinks(cur: Version, base: Version, p: Plan, outs: seq<File>, cur': Version)
    requires Installable(cur, base, p) && Installed(cur, p, outs, cur')
    requires ComesFrom(outs, p.in0 + p.in1)
    ensures VersionEntries(cur') <= VersionEntries(cur)
  {
    hide Installable, Ordered, ComesFrom;
    forall e | e in VersionEntries(cur') ensures e in VersionEntries(cur) {
      var l: int, h: File :| 0 <= l < |cur'| && h in cur'[l] && e in h.entries;
      if l == p.level + 1 && h in outs {
        var f := SourceOf(outs, p.in0 + p.in1, h, e);
        InputInVersion(cur, base, p, f);
        assert e in ToSet(f.entries);
      } else {
        assert h in cur[l];
      }
    }
  }

  /** An entry that disappears was in the merge input and was dropped there. */
  lemma LostWasDropped(cur: Version, base: Version, p: Plan, snapshot: nat, input: seq<Entry>, outs: seq<File>,
                       cur': Version, e: Entry)
    returns (f: File, i: nat)
    requires Installed(cur, p, outs, cur')
    requires MergeResult(base, p, snapshot, input, outs)
    requires e in VersionEntries(cur) && e !in VersionEntries(cur')
    ensures f in p.in0 + p.in1 && i < |input| && input[i] == e && e in f.entries
    ensures Dropped(base, p.level + 2, snapshot, input, i)
  {
    hide Ordered, Dropped, Survivors, Sorted, AllValid, OutputsOrdered;
    var l: int, h: File :| 0 <= l < |cur| && h in cur[l] && e in h.entries;
    assert h !in cur'[l];
    f := h;
    assert InSome(p.in0 + p.in1, e);
    i :| 0 <= i < |input| && input[i] == e;
    NotSurvived(cur, p, outs, cur', e);
    SurvivorIndex(base, p.level + 2, snapshot, input, |input|, e);
  }

  lemma NotSurvived(cur: Version, p: Plan, outs: seq<File>, cur': Version, e: Entry)
    requires Installed(cur, p, outs, cur')
    requires e !in VersionEntries(cur')
    ensures !InSome(outs, e)
  {
    hide Ordered;
    forall o | o in outs ensures e !in o.entries {
      assert o in cur'[p.level + 1];
    }
  }

  /** Compaction preserves meaning: for every user key and every sequence number from the oldest
      snapshot on, the version answers the same before and after the results are installed. */
  lemma CompactionInvisible(cur: Version, base: Version, p: Plan, snapshot: nat, input: seq<Entry>, outs: seq<File>,
                            cur': Version, k: UserKey, at: nat)
    requires Layered(cur) && Unambiguous(VersionEntries(cur))
    requires Installable(cur, base, p) && Installed(cur, p, outs, cur')
    requires MergeResult(base, p, snapshot, input, outs)
    requires snapshot <= at
    ensures View(VersionEntries(cur), k, at) == View(VersionEntries(cur'), k, at)
  {
    hide Layered, Unambiguous, Installable, Installed, MergeResult, VersionEntries, View, Superseded, VainDeletion;
    ResultComesFrom(base, p, snapshot, input, outs);
    InstalledShrinks(cur, base, p, outs, cur');
    assert MergedFrom(input, p.in0 + p.in1) by {
      ResultMerged(base, p, snapshot, input, outs);
    }
    InputEntriesInVersion(cur, base, p, input);
    forall e | e in VersionEntries(cur) && e !in VersionEntries(cur')
      ensures Superseded(VersionEntries(cur), snapshot, e) || VainDeletion(VersionEntries(cur'), snapshot, e)
    {
      var f, i := LostWasDropped(cur, base, p, snapshot, input, outs, cur', e);
      if HiddenBefore(input, i, snapshot) {
        HiddenIsSuperseded(input, i, snapshot, VersionEntries(cur));
      } else {
        ObsoleteIsVain(cur, base, p, snapshot, input, outs, cur', f, i);
      }
    }
    DropsInvisible(VersionEntries(cur), VersionEntries(cur'), snapshot, k, at);
  }

  lemma ResultMerged(base: Version, p: Plan, snapshot: nat, input: seq<Entry>, outs: seq<File>)
    requires MergeResult(base, p, snapshot, input, outs)
    ensures MergedFrom(input, p.in0 + p.in1) && Sorted(input)
    ensures AllValid(outs) && OutputsOrdered(outs)
  {
  }
}
