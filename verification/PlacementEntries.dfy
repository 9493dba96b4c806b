// Placement entries: validation, the epoch rule and the set comparison of
// backend/internal/placement/directory.go.

module PlacementEntries {
  import opened Common
  import Names

  datatype Entry = Entry(
    provider: string, appRef: string, assetId: string,
    tenantId: string, workspaceId: string, environmentId: string,
    region: string, cellId: string, epoch: int, state: string)

  // The JSON triple used as a map key; printing a JSON array of strings is injective.
  datatype Identity = Identity(provider: string, appRef: string, assetId: string)

  function IdentityOf(e: Entry): Identity {
    Identity(e.provider, e.appRef, e.assetId)
  }

  // What validation needs to know of a directory's configuration.
  datatype EntryRules = EntryRules(environmentId: string, regions: set<string>, maxEntries: nat)

  predicate ValidEntry(r: EntryRules, e: Entry) {
    && Names.Token(e.provider) && Names.Token(e.appRef) && Names.Token(e.assetId)
    && Names.Token(e.tenantId) && Names.Token(e.workspaceId)
    && e.environmentId == r.environmentId
    && e.region in r.regions
    && Names.TopicPart(e.cellId)
    && 1 <= e.epoch <= MAX_SAFE_INTEGER
    && e.state in {"active", "suspended", "revoked"}
  }

  ghost predicate Distinct(es: seq<Entry>) {
    forall i, j :: 0 <= i < j < |es| ==> IdentityOf(es[i]) != IdentityOf(es[j])
  }

  // An entry that these rules do not admit.
  ghost predicate Offends(r: EntryRules, e: Entry) {
    || !Names.Token(e.provider) || !Names.Token(e.appRef) || !Names.Token(e.assetId)
    || !Names.Token(e.tenantId) || !Names.Token(e.workspaceId) || !Names.TopicPart(e.cellId)
    || e.environmentId != r.environmentId || e.region !in r.regions
    || e.epoch < 1 || e.epoch > 9007199254740991
    || (e.state != "active" && e.state != "suspended" && e.state != "revoked")
  }

  // What an accepted list is: bounded, no entry offending, no asset twice.
  ghost predicate WellFormed(r: EntryRules, es: seq<Entry>) {
    && 0 < |es| <= r.maxEntries
    && (forall i :: 0 <= i < |es| ==> !Offends(r, es[i]))
    && Distinct(es)
  }

  // The lookup table of a list of entries.
  function Index(es: seq<Entry>): map<Identity, Entry> {
    if es == [] then map[] else Index(es[..|es| - 1])[IdentityOf(Last(es)) := Last(es)]
  }

  lemma {:induction false} IndexHolds(es: seq<Entry>, id: Identity)
    ensures id in Index(es) <==> exists i :: 0 <= i < |es| && IdentityOf(es[i]) == id
    ensures id in Index(es) ==> Index(es)[id] in es && IdentityOf(Index(es)[id]) == id
  {
    if es != [] {
      var front := es[..|es| - 1];
      IndexHolds(front, id);
      assert es == front + [Last(es)];
      if id in Index(front) {
        var i :| 0 <= i < |front| && IdentityOf(front[i]) == id;
        assert IdentityOf(es[i]) == id;
      }
      if i :| 0 <= i < |es| && IdentityOf(es[i]) == id {
        if i < |front| { assert IdentityOf(front[i]) == id; }
      }
      assert IdentityOf(es[|es| - 1]) == IdentityOf(Last(es));
    }
  }

  // A list without duplicates is exactly its table: same size, same entries.
  lemma {:induction false} IndexOfDistinct(es: seq<Entry>)
    requires Distinct(es)
    ensures |Index(es)| == |es|
    ensures forall i :: 0 <= i < |es| ==> IdentityOf(es[i]) in Index(es) && Index(es)[IdentityOf(es[i])] == es[i]
  {
    if es != [] {
      var front := es[..|es| - 1];
      IndexOfDistinct(front);
      IndexHolds(front, IdentityOf(Last(es)));
      assert forall i :: 0 <= i < |front| ==> front[i] == es[i];
    }
  }

  lemma IndexStep(es: seq<Entry>, i: nat)
    requires i < |es| && Distinct(es[..i])
    ensures Index(es[..i + 1]) == Index(es[..i])[IdentityOf(es[i]) := es[i]]
    ensures IdentityOf(es[i]) in Index(es[..i]) ==> !Distinct(es)
    ensures IdentityOf(es[i]) !in Index(es[..i]) ==> Distinct(es[..i + 1])
  {
    var front, id := es[..i], IdentityOf(es[i]);
    assert es[..i + 1][..i] == front && Last(es[..i + 1]) == es[i];
    IndexHolds(front, id);
    if id in Index(front) {
      var k :| 0 <= k < i && IdentityOf(front[k]) == id;
      assert IdentityOf(es[k]) == IdentityOf(es[i]);
    } else {
      assert forall k :: 0 <= k < i ==> front[k] == es[k] && IdentityOf(front[k]) != id;
    }
  }

  // What is wrong with the first offending entry.
  function FirstFault(r: EntryRules, es: seq<Entry>): Option<string> {
    if es == [] then None
    else
      var front, last := es[..|es| - 1], Last(es);
      var earlier := FirstFault(r, front);
      if earlier.Some? then earlier
      else if !ValidEntry(r, last) then Some("placement_entry_invalid")
      else if IdentityOf(last) in Index(front) then Some("placement_duplicate_asset")
      else None
  }

  function EntriesFault(r: EntryRules, es: seq<Entry>): Option<string> {
    if |es| == 0 || |es| > r.maxEntries then Some("placement_entry_bounds") else FirstFault(r, es)
  }

  lemma {:induction false} FaultLasts(r: EntryRules, es: seq<Entry>, i: nat)
    requires i <= |es| && FirstFault(r, es[..i]).Some?
    ensures FirstFault(r, es) == FirstFault(r, es[..i])
    decreases |es| - i
  {
    if i == |es| {
      assert es[..i] == es;
    } else {
      assert es[..i + 1][..i] == es[..i];
      FaultLasts(r, es, i + 1);
    }
  }

  // One round of the loop.
  lemma FaultStep(r: EntryRules, es: seq<Entry>, i: nat)
    requires i < |es| && FirstFault(r, es[..i]).None?
    ensures FirstFault(r, es[..i + 1]) ==
      if !ValidEntry(r, es[i]) then Some("placement_entry_invalid")
      else if IdentityOf(es[i]) in Index(es[..i]) then Some("placement_duplicate_asset")
      else None
    ensures FirstFault(r, es[..i + 1]).Some? ==> FirstFault(r, es) == FirstFault(r, es[..i + 1])
    ensures Index(es[..i + 1]) == Index(es[..i])[IdentityOf(es[i]) := es[i]]
  {
    assert es[..i + 1][..i] == es[..i] && Last(es[..i + 1]) == es[i];
    if FirstFault(r, es[..i + 1]).Some? { FaultLasts(r, es, i + 1); }
  }

  // Nothing is wrong exactly with a well-formed list.
  lemma {:induction false} EntriesFaultMeans(r: EntryRules, es: seq<Entry>)
    ensures FirstFault(r, es).None? <==> (forall i :: 0 <= i < |es| ==> !Offends(r, es[i])) && Distinct(es)
    ensures EntriesFault(r, es).None? <==> WellFormed(r, es)
  {
    if es != [] {
      var front, n := es[..|es| - 1], |es| - 1;
      EntriesFaultMeans(r, front);
      assert forall i :: 0 <= i < n ==> front[i] == es[i];
      assert es[..n + 1] == es;
      if Distinct(front) { IndexStep(es, n); }
    }
  }

  // The code of a fault names what is wrong with the list.
  lemma EntriesFaultNamesIt(r: EntryRules, es: seq<Entry>)
    requires EntriesFault(r, es).Some?
    ensures
      var code := EntriesFault(r, es).value;
      || (code == "placement_entry_bounds" && (es == [] || |es| > r.maxEntries))
      || (code == "placement_entry_invalid" && exists i :: 0 <= i < |es| && Offends(r, es[i]))
      || (code == "placement_duplicate_asset" && !Distinct(es))
  {
    if 0 < |es| <= r.maxEntries { FirstFaultNamesIt(r, es); }
  }

  lemma {:induction false} FirstFaultNamesIt(r: EntryRules, es: seq<Entry>)
    requires FirstFault(r, es).Some?
    ensures
      var code := FirstFault(r, es).value;
      || (code == "placement_entry_invalid" && exists i :: 0 <= i < |es| && Offends(r, es[i]))
      || (code == "placement_duplicate_asset" && !Distinct(es))
  {
    var front, n := es[..|es| - 1], |es| - 1;
    assert forall i :: 0 <= i < n ==> front[i] == es[i];
    if FirstFault(r, front).Some? {
      FirstFaultNamesIt(r, front);
      if i :| 0 <= i < |front| && Offends(r, front[i]) { assert Offends(r, es[i]); }
    } else if !ValidEntry(r, es[n]) {
      assert Offends(r, es[n]);
    } else {
      IndexHolds(front, IdentityOf(es[n]));
    }
  }

  method ValidateEntries(r: EntryRules, entries: seq<Entry>) returns (res: Result<map<Identity, Entry>>)
    ensures res.Ok? <==> WellFormed(r, entries)
    ensures
      var fault := EntriesFault(r, entries);
      res == if fault.Some? then Err(fault.value) else Ok(Index(entries))
  {
    EntriesFaultMeans(r, entries);
    if |entries| == 0 || |entries| > r.maxEntries {
      return Err("placement_entry_bounds");
    }
    var index: map<Identity, Entry> := map[];
    for i := 0 to |entries|
      invariant index == Index(entries[..i])
      invariant FirstFault(r, entries[..i]).None?
    {
      var e := entries[i];
      FaultStep(r, entries, i);
      if !ValidEntry(r, e) {
        return Err("placement_entry_invalid");
      }
      var id := IdentityOf(e);
      if id in index {
        return Err("placement_duplicate_asset");
      }
      index := index[id := e];
    }
    assert entries[..|entries|] == entries;
    return Ok(index);
  }

  // The anti-rollback rule between an accepted list and its successor.
  ghost predicate EpochsAdvance(previous: seq<Entry>, next: map<Identity, Entry>) {
    forall i :: 0 <= i < |previous| ==> KeepsEpoch(previous[i], next)
  }

  predicate KeepsEpoch(old_: Entry, next: map<Identity, Entry>) {
    && IdentityOf(old_) in next
    && next[IdentityOf(old_)].epoch >= old_.epoch
    && (next[IdentityOf(old_)].epoch == old_.epoch ==> next[IdentityOf(old_)] == old_)
  }

  function EpochFault(old_: Entry, next: map<Identity, Entry>): string
    requires !KeepsEpoch(old_, next)
  {
    if IdentityOf(old_) !in next then "placement_tombstone_required"
    else if next[IdentityOf(old_)].epoch < old_.epoch then "placement_epoch_rollback"
    else "placement_epoch_increment_required"
  }

  // The fault of the first entry that breaks the rule.
  function EpochsFault(previous: seq<Entry>, next: map<Identity, Entry>): Option<string> {
    if previous == [] then None
    else if !KeepsEpoch(previous[0], next) then Some(EpochFault(previous[0], next))
    else EpochsFault(previous[1..], next)
  }

  lemma {:induction false} EpochsFaultMeans(previous: seq<Entry>, next: map<Identity, Entry>)
    ensures EpochsFault(previous, next).None? <==> EpochsAdvance(previous, next)
  {
    if previous != [] {
      EpochsFaultMeans(previous[1..], next);
      if EpochsAdvance(previous[1..], next) && KeepsEpoch(previous[0], next) {
        forall i | 0 <= i < |previous| ensures KeepsEpoch(previous[i], next) {
          if i > 0 { assert previous[i] == previous[1..][i - 1]; }
        }
      }
    }
  }

  lemma {:induction false} EpochsFaultNamesIt(previous: seq<Entry>, next: map<Identity, Entry>)
    requires EpochsFault(previous, next).Some?
    ensures
      var code := EpochsFault(previous, next).value;
      exists e :: e in previous && EpochFaultOf(code, e, next)
  {
    if KeepsEpoch(previous[0], next) {
      EpochsFaultNamesIt(previous[1..], next);
    } else {
      assert previous[0] in previous;
    }
  }

  // The code of an epoch fault, and the old entry it is about.
  ghost predicate EpochFaultOf(code: string, e: Entry, next: map<Identity, Entry>) {
    var id := IdentityOf(e);
    || (code == "placement_tombstone_required" && id !in next)
    || (code == "placement_epoch_rollback" && id in next && next[id].epoch < e.epoch)
    || (code == "placement_epoch_increment_required" && id in next && next[id].epoch == e.epoch && next[id] != e)
  }

  method ValidateEpochs(previous: seq<Entry>, next: map<Identity, Entry>) returns (fault: Option<string>)
    ensures fault == EpochsFault(previous, next)
    ensures fault.None? <==> EpochsAdvance(previous, next)
  {
    EpochsFaultMeans(previous, next);
    for i := 0 to |previous|
      invariant EpochsFault(previous, next) == EpochsFault(previous[i..], next)
    {
      assert previous[i..][0] == previous[i] && previous[i..][1..] == previous[i + 1..];
      var old_ := previous[i];
      var id := IdentityOf(old_);
      if id !in next {
        return Some("placement_tombstone_required");
      }
      var entry := next[id];
      if entry.epoch < old_.epoch {
        return Some("placement_epoch_rollback");
      }
      if entry.epoch == old_.epoch && entry != old_ {
        return Some("placement_epoch_increment_required");
      }
    }
    return None;
  }

  // The rule composes, so it holds between any two lists of a chain.
  lemma EpochsAdvanceTransitive(a: seq<Entry>, b: seq<Entry>, c: seq<Entry>)
    requires EpochsAdvance(a, Index(b)) && EpochsAdvance(b, Index(c))
    ensures EpochsAdvance(a, Index(c))
  {
    forall i | 0 <= i < |a| ensures KeepsEpoch(a[i], Index(c)) {
      var id := IdentityOf(a[i]);
      assert KeepsEpoch(a[i], Index(b));
      IndexHolds(b, id);
      var k :| 0 <= k < |b| && b[k] == Index(b)[id];
      assert KeepsEpoch(b[k], Index(c));
    }
  }

  lemma EpochsAdvanceReflexive(a: seq<Entry>)
    requires Distinct(a)
    ensures EpochsAdvance(a, Index(a))
  {
    IndexOfDistinct(a);
  }

  // With no duplicates on the left, equal sizes plus one-way containment is equality.
  method SameEntries(previous: seq<Entry>, next: map<Identity, Entry>) returns (same: bool)
    ensures Distinct(previous) ==> (same <==> Index(previous) == next)
  {
    if |previous| != |next| {
      if Distinct(previous) { IndexOfDistinct(previous); }
      return false;
    }
    for i := 0 to |previous|
      invariant forall k :: 0 <= k < i ==>
        IdentityOf(previous[k]) in next && next[IdentityOf(previous[k])] == previous[k]
    {
      var old_ := previous[i];
      var id := IdentityOf(old_);
      if id !in next || next[id] != old_ {
        if Distinct(previous) { IndexOfDistinct(previous); }
        return false;
      }
    }
    if Distinct(previous) { SameSizeContainment(previous, next); }
    return true;
  }

  lemma SameSizeContainment(es: seq<Entry>, m: map<Identity, Entry>)
    requires Distinct(es) && |es| == |m|
    requires forall k :: 0 <= k < |es| ==> IdentityOf(es[k]) in m && m[IdentityOf(es[k])] == es[k]
    ensures Index(es) == m
  {
    IndexOfDistinct(es);
    forall id | id in Index(es) ensures id in m && m[id] == Index(es)[id] {
      IndexHolds(es, id);
    }
    SubsetOfSameSize(Index(es).Keys, m.Keys);
  }

  lemma SubsetOfSameSize<T>(a: set<T>, b: set<T>)
    requires a <= b && |a| == |b|
    ensures a == b
  {
    assert b == a + (b - a);
    assert |b| == |a| + |b - a|;
  }
}
