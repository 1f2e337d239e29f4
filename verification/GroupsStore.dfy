/** The master group list on disk, the login files, and the two-level cache in front of them. */
module GroupsStore {
  import opened Wrappers
  import opened IstTime
  import opened Sequences
  import opened Text
  import opened GroupAssignment

  const CACHE_TTL := 45 * SECOND

  datatype Slice = Slice(at: int, groups: seq<string>)

  datatype Cache = Cache(master: Option<seq<string>>, loadedAt: int, slices: map<string, Slice>)

  const EMPTY_CACHE := Cache(None, 0, map[])

  /** The files and the cache. `info` maps each account with a login file to its phone. */
  datatype Store = Store(slots: seq<string>, file: Option<seq<string>>, info: map<string, string>, cache: Cache) {
    function OnDisk(): seq<string> {
      if file.Some? then file.value else []
    }

    /** The slice computed afresh, without any cache. */
    function Direct(slot: string): seq<string> {
      GroupsForSlot(slots, info.Keys, slot, OnDisk())
    }
  }

  function LoadedMaster(st: Store, now: int): (Store, seq<string>) {
    if st.cache.master.Some? && now - st.cache.loadedAt < CACHE_TTL then (st, st.cache.master.value)
    else (st.(cache := Cache(Some(st.OnDisk()), now, map[])), st.OnDisk())
  }

  function CachedSlice(st: Store, slot: string, master: seq<string>, now: int): (Store, seq<string>) {
    if slot in st.cache.slices && now - st.cache.slices[slot].at < CACHE_TTL then (st, st.cache.slices[slot].groups)
    else
      var sliced := GroupsForSlot(st.slots, st.info.Keys, slot, master);
      (st.(cache := st.cache.(slices := st.cache.slices[slot := Slice(now, sliced)])), sliced)
  }

  function Snapshot(st: Store, slot: string, now: int): (Store, seq<string>) {
    var (loaded, master) := LoadedMaster(st, now);
    CachedSlice(loaded, slot, master, now)
  }

  function SavedMaster(st: Store, groups: seq<string>, now: int): Store {
    st.(file := Some(groups), cache := Cache(Some(groups), now, map[]))
  }

  function NormalizeGroupName(name: string): string {
    Lower(DropAts(Strip(name)))
  }

  function RemoveSet(names: seq<string>): set<string> {
    set n | n in names && n != "" :: NormalizeGroupName(n)
  }

  function Keeps(remove: set<string>): string -> bool {
    (g: string) => NormalizeGroupName(g) !in remove
  }

  datatype Removal = Removal(before: nat, after: nat, removed: nat, removedNames: seq<string>)

  function Drops(remove: set<string>): string -> bool {
    (g: string) => NormalizeGroupName(g) in remove
  }

  function RemovedNames(st: Store, names: seq<string>, now: int): (Store, Removal) {
    if names == [] then (st, Removal(0, 0, 0, []))
    else
      var remove := RemoveSet(names);
      var (loaded, master) := LoadedMaster(st, now);
      var kept, removed := Filter(master, Keeps(remove)), Filter(master, Drops(remove));
      if removed == [] then (loaded, Removal(|master|, |master|, 0, []))
      else (SavedMaster(loaded, kept, now), Removal(|master|, |kept|, |removed|, removed))
  }

  /** A login: a phone must be known, now or from before; only a new file resets the cache. */
  function SavedInfo(st: Store, slot: string, phone: Option<string>): Store {
    if slot !in st.slots then st
    else
      var merged := if phone.Some? then phone.value else if slot in st.info then st.info[slot] else "";
      if merged == "" then st
      else st.(info := st.info[slot := merged], cache := if slot in st.info then st.cache else EMPTY_CACHE)
  }

  function ClearedInfo(st: Store, slot: string): Store {
    if slot in st.info then st.(info := st.info - {slot}, cache := EMPTY_CACHE) else st
  }

  class GroupsStoreFiles {
    const slots: seq<string>
    var file: Option<seq<string>>
    var info: map<string, string>
    var master: Option<seq<string>>
    var loadedAt: int
    var slices: map<string, Slice>

    function View(): Store
      reads this
    {
      Store(slots, file, info, Cache(master, loadedAt, slices))
    }

    constructor (slots: seq<string>, file: Option<seq<string>>, info: map<string, string>)
      ensures View() == Store(slots, file, info, EMPTY_CACHE)
    {
      this.slots, this.file, this.info := slots, file, info;
      master, loadedAt, slices := None, 0, map[];
    }

    method InvalidateMasterCache()
      modifies this`master, this`loadedAt, this`slices
      ensures View() == old(View()).(cache := EMPTY_CACHE)
    {
      master, loadedAt := None, 0;
      slices := map[];
    }

    method SetMasterCache(groups: seq<string>, now: int)
      modifies this`master, this`loadedAt, this`slices
      ensures View() == old(View()).(cache := Cache(Some(groups), now, map[]))
    {
      master := Some(groups);
      loadedAt := now;
      slices := map[];
    }

    method LoadMasterGroups(now: int) returns (groups: seq<string>)
      modifies this`master, this`loadedAt, this`slices
      ensures (View(), groups) == LoadedMaster(old(View()), now)
    {
      if master.Some? && now - loadedAt < CACHE_TTL {
        return master.value;
      }
      groups := if file.Some? then file.value else [];
      SetMasterCache(groups, now);
    }

    method GetCachedSlice(slot: string, groups: seq<string>, now: int) returns (sliced: seq<string>)
      modifies this`slices
      ensures (View(), sliced) == CachedSlice(old(View()), slot, groups, now)
    {
      if slot in slices && now - slices[slot].at < CACHE_TTL {
        return slices[slot].groups;
      }
      sliced := GroupsForSlot(slots, info.Keys, slot, groups);
      slices := slices[slot := Slice(now, sliced)];
    }

    method GroupsReadonlySnapshotForSlot(slot: string, now: int) returns (sliced: seq<string>)
      modifies this`master, this`loadedAt, this`slices
      ensures (View(), sliced) == Snapshot(old(View()), slot, now)
    {
      var groups := LoadMasterGroups(now);
      sliced := GetCachedSlice(slot, groups, now);
    }

    method SaveMasterGroups(groups: seq<string>, now: int)
      modifies this
      ensures View() == SavedMaster(old(View()), groups, now)
    {
      file := Some(groups);
      SetMasterCache(groups, now);
    }

    method RemoveFromMasterGroups(names: seq<string>, now: int) returns (r: Removal)
      modifies this
      ensures (View(), r) == RemovedNames(old(View()), names, now)
    {
      if names == [] {
        return Removal(0, 0, 0, []);
      }
      var remove := set n | n in names && n != "" :: NormalizeGroupName(n);
      var groups := LoadMasterGroups(now);
      var kept, removed := Split(groups, remove);
      if removed == [] {
        return Removal(|groups|, |groups|, 0, []);
      }
      SaveMasterGroups(kept, now);
      r := Removal(|groups|, |kept|, |removed|, removed);
    }

    method SaveAccountInfo(slot: string, phone: Option<string>)
      modifies this
      ensures View() == SavedInfo(old(View()), slot, phone)
    {
      if slot !in slots {
        return;
      }
      var existing := if slot in info then info[slot] else "";
      var merged := if phone.Some? then phone.value else existing;
      if merged == "" {
        return;
      }
      var isNew := slot !in info;
      info := info[slot := merged];
      if isNew {
        InvalidateMasterCache();
      }
    }

    method ClearAccountInfo(slot: string)
      modifies this
      ensures View() == ClearedInfo(old(View()), slot)
    {
      if slot in info {
        info := info - {slot};
        InvalidateMasterCache();
      }
    }
  }

  method Split(groups: seq<string>, remove: set<string>) returns (kept: seq<string>, removed: seq<string>)
    ensures kept == Filter(groups, Keeps(remove)) && removed == Filter(groups, Drops(remove))
    ensures |kept| + |removed| == |groups|
  {
    kept, removed := [], [];
    for i := 0 to |groups|
      invariant kept == Filter(groups[..i], Keeps(remove)) && removed == Filter(groups[..i], Drops(remove))
      invariant |kept| + |removed| == i
    {
      assert groups[..i + 1] == groups[..i] + [groups[i]];
      FilterSnoc(groups[..i], groups[i], Keeps(remove));
      FilterSnoc(groups[..i], groups[i], Drops(remove));
      if NormalizeGroupName(groups[i]) in remove {
        removed := removed + [groups[i]];
      } else {
        kept := kept + [groups[i]];
      }
    }
    assert groups[..|groups|] == groups;
  }

  datatype Step =
    | Wait(elapsed: nat)
    | Load
    | TakeSnapshot(slot: string)
    | Save(groups: seq<string>)
    | Remove(names: seq<string>)
    | Login(slot: string, phone: Option<string>)
    | Logout(slot: string)

  datatype World = World(now: int, store: Store)

  function Next(w: World, step: Step): World {
    match step
    case Wait(elapsed) => w.(now := w.now + elapsed)
    case Load => w.(store := LoadedMaster(w.store, w.now).0)
    case TakeSnapshot(slot) => w.(store := Snapshot(w.store, slot, w.now).0)
    case Save(groups) => w.(store := SavedMaster(w.store, groups, w.now))
    case Remove(names) => w.(store := RemovedNames(w.store, names, w.now).0)
    case Login(slot, phone) => w.(store := SavedInfo(w.store, slot, phone))
    case Logout(slot) => w.(store := ClearedInfo(w.store, slot))
  }

  function Run(w: World, steps: seq<Step>): World {
    if steps == [] then w else Next(Run(w, steps[..|steps| - 1]), steps[|steps| - 1])
  }

  /** Whatever the cache holds is what the files say now, fresh or not. */
  ghost predicate Coherent(st: Store) {
    && (st.cache.master.Some? ==> st.cache.master.value == st.OnDisk())
    && forall slot :: slot in st.cache.slices ==> st.cache.slices[slot].groups == st.Direct(slot)
  }

  lemma SnapshotIsDirect(st: Store, slot: string, now: int)
    requires Coherent(st)
    ensures LoadedMaster(st, now).1 == st.OnDisk() && Coherent(LoadedMaster(st, now).0)
    ensures Snapshot(st, slot, now).1 == st.Direct(slot)
    ensures Coherent(Snapshot(st, slot, now).0)
  {
  }

  lemma {:induction false} StepKeepsCoherent(w: World, step: Step)
    requires Coherent(w.store)
    ensures Coherent(Next(w, step).store)
  {
    match step {
      case TakeSnapshot(slot) => SnapshotIsDirect(w.store, slot, w.now);
      case Remove(names) => SnapshotIsDirect(w.store, "", w.now);
      case Login(slot, phone) =>
        if slot in w.store.info {
          assert SavedInfo(w.store, slot, phone).info.Keys == w.store.info.Keys;
        }
      case _ =>
    }
  }

  lemma {:induction false} RunKeepsCoherent(w: World, steps: seq<Step>)
    requires Coherent(w.store)
    ensures Coherent(Run(w, steps).store)
  {
    if steps == [] {
    } else {
      RunKeepsCoherent(w, steps[..|steps| - 1]);
      StepKeepsCoherent(Run(w, steps[..|steps| - 1]), steps[|steps| - 1]);
    }
  }

  /** Main result. After any run of saves, removals, logins, logouts, loads, snapshots and waits,
      begun on any files with an empty cache, a snapshot is exactly the slice computed from the
      list on disk under the present logins. */
  lemma {:induction false} SnapshotsNeverStale(w: World, steps: seq<Step>, slot: string)
    requires w.store.cache == EMPTY_CACHE
    ensures var v := Run(w, steps);
            Snapshot(v.store, slot, v.now).1 == GroupsForSlot(v.store.slots, v.store.info.Keys, slot, v.store.OnDisk())
  {
    RunKeepsCoherent(w, steps);
    SnapshotIsDirect(Run(w, steps).store, slot, Run(w, steps).now);
  }

  /** A removal, though it works on the cached list, takes exactly the named groups off the list
      on disk, keeps the others in order, and reports the true counts. */
  lemma {:induction false} RemovalActsOnDisk(w: World, steps: seq<Step>, names: seq<string>)
    requires w.store.cache == EMPTY_CACHE && names != []
    ensures var v := Run(w, steps);
            var (after, r) := RemovedNames(v.store, names, v.now);
            && after.OnDisk() == Filter(v.store.OnDisk(), Keeps(RemoveSet(names)))
            && r.before == |v.store.OnDisk()| && r.after == |after.OnDisk()| && r.before == r.after + r.removed
            && (r.removed == 0 <==> forall g :: g in v.store.OnDisk() ==> NormalizeGroupName(g) !in RemoveSet(names))
  {
    RunKeepsCoherent(w, steps);
    var v := Run(w, steps);
    SnapshotIsDirect(v.store, "", v.now);
    var disk, remove := v.store.OnDisk(), RemoveSet(names);
    KeptPlusDropped(disk, remove);
    FilterMembers(disk, Drops(remove));
    if Filter(disk, Drops(remove)) == [] {
      FilterFull(disk, Keeps(remove));
    } else {
      assert Filter(disk, Drops(remove))[0] in Filter(disk, Drops(remove));
    }
  }

  lemma {:induction false} KeptPlusDropped(groups: seq<string>, remove: set<string>)
    ensures |Filter(groups, Keeps(remove))| + |Filter(groups, Drops(remove))| == |groups|
  {
    if groups == [] {
    } else {
      KeptPlusDropped(groups[..|groups| - 1], remove);
    }
  }

  /** A trimmed name without leading @, in any case, with or without one @ and white space around it,
      stands for its lower-case form. */
  lemma {:induction false} GroupNameIs(lead: string, name: string, end: string)
    requires AllSpace(lead) && AllSpace(end)
    requires name != "" && name[0] != '@' && !IsSpace(name[0]) && !IsSpace(name[|name| - 1])
    ensures NormalizeGroupName(lead + name + end) == Lower(name)
    ensures NormalizeGroupName(lead + ("@" + name) + end) == Lower(name)
  {
    StripSkips(lead, name, end);
    StripSkips(lead, "@" + name, end);
    assert ("@" + name)[1..] == name;
  }

  /** The group is named, in some spelling. */
  ghost predicate Named(names: seq<string>, group: string) {
    exists n :: n in names && n != "" && NormalizeGroupName(n) == NormalizeGroupName(group)
  }

  /** Main result on removals. After every run, a removal leaves on disk exactly the groups that are not
      named, in their order, and every snapshot is then taken of what is left. */
  lemma {:induction false} RemovalKeepsTheUnnamed(w: World, steps: seq<Step>, names: seq<string>, slot: string)
    requires w.store.cache == EMPTY_CACHE
    ensures var v := Run(w, steps);
            var after := Next(v, Remove(names));
            && (forall g :: g in after.store.OnDisk() <==> g in v.store.OnDisk() && !Named(names, g))
            && after.store.OnDisk() == Filter(v.store.OnDisk(), Keeps(RemoveSet(names)))
            && after.store.info == v.store.info
            && Snapshot(after.store, slot, after.now).1 ==
               GroupsForSlot(v.store.slots, v.store.info.Keys, slot, after.store.OnDisk())
  {
    var v := Run(w, steps);
    RunKeepsCoherent(w, steps);
    StepKeepsCoherent(v, Remove(names));
    SnapshotIsDirect(Next(v, Remove(names)).store, slot, v.now);
    RemovalKeeps(v, names);
    FilterMembers(v.store.OnDisk(), Keeps(RemoveSet(names)));
    forall g
      ensures Keeps(RemoveSet(names))(g) <==> !Named(names, g)
    {
    }
  }

  lemma RemovalKeeps(w: World, names: seq<string>)
    requires Coherent(w.store)
    ensures var after := Next(w, Remove(names));
            && after.store.OnDisk() == Filter(w.store.OnDisk(), Keeps(RemoveSet(names)))
            && after.store.info == w.store.info && after.store.slots == w.store.slots
  {
    var disk, remove := w.store.OnDisk(), RemoveSet(names);
    SnapshotIsDirect(w.store, "", w.now);
    KeptPlusDropped(disk, remove);
    if names == [] {
      FilterAll(disk, Keeps(remove));
    } else if Filter(disk, Drops(remove)) == [] {
      FilterFull(disk, Keeps(remove));
    }
  }

  /** A save puts exactly the list on disk and before every snapshot. */
  lemma {:induction false} SaveTakesEffect(w: World, steps: seq<Step>, groups: seq<string>, slot: string)
    requires w.store.cache == EMPTY_CACHE
    ensures var v := Next(Run(w, steps), Save(groups));
            && v.store.OnDisk() == groups && v.store.info == Run(w, steps).store.info
            && Snapshot(v.store, slot, v.now).1 == GroupsForSlot(v.store.slots, v.store.info.Keys, slot, groups)
  {
    RunKeepsCoherent(w, steps);
    StepKeepsCoherent(Run(w, steps), Save(groups));
    SnapshotIsDirect(Next(Run(w, steps), Save(groups)).store, slot, Run(w, steps).now);
  }

  /** A logout takes the login file and with it the groups of that account, and no other login. */
  lemma {:induction false} LogoutTakesEffect(w: World, steps: seq<Step>, slot: string)
    requires w.store.cache == EMPTY_CACHE && NoRepeats(w.store.slots)
    ensures var v := Run(w, steps);
            var after := Next(v, Logout(slot));
            && after.store.info == v.store.info - {slot} && after.store.OnDisk() == v.store.OnDisk()
            && Snapshot(after.store, slot, after.now).1 == []
  {
    var v := Run(w, steps);
    RunKeepsCoherent(w, steps);
    StepKeepsCoherent(v, Logout(slot));
    SnapshotIsDirect(Next(v, Logout(slot)).store, slot, v.now);
    RunKeepsSlots(w, steps);
    SliceIs(v.store.slots, Next(v, Logout(slot)).store.info.Keys, slot, v.store.OnDisk());
  }

  lemma {:induction false} RunKeepsSlots(w: World, steps: seq<Step>)
    ensures Run(w, steps).store.slots == w.store.slots
  {
    if steps == [] {
    } else {
      RunKeepsSlots(w, steps[..|steps| - 1]);
    }
  }

  /** The phone a login leaves on file, blank for none. */
  function PhoneAfter(st: Store, slot: string, phone: Option<string>): string {
    if phone.Some? then phone.value else if slot in st.info then st.info[slot] else ""
  }

  /** A login of a configured account whose phone is known puts it on file, and the account then has its
      share of the list; any other login changes nothing. */
  lemma {:induction false} LoginTakesEffect(w: World, steps: seq<Step>, slot: string, phone: Option<string>)
    requires w.store.cache == EMPTY_CACHE && NoRepeats(w.store.slots)
    ensures var v := Run(w, steps);
            var after := Next(v, Login(slot, phone));
            && after.store.OnDisk() == v.store.OnDisk()
            && if slot in w.store.slots && PhoneAfter(v.store, slot, phone) != "" then
                 && after.store.info == v.store.info[slot := PhoneAfter(v.store, slot, phone)]
                 && (|v.store.OnDisk()| >= LoggedInAmong(w.store.slots, after.store.info.Keys) ==>
                       Snapshot(after.store, slot, after.now).1 != [])
               else after.store == v.store
  {
    RunKeepsCoherent(w, steps);
    RunKeepsSlots(w, steps);
    LoginGivesShare(Run(w, steps), slot, phone);
  }

  lemma LoginIs(st: Store, slot: string, phone: Option<string>)
    ensures var after := SavedInfo(st, slot, phone);
            && after.OnDisk() == st.OnDisk() && after.slots == st.slots
            && if slot in st.slots && PhoneAfter(st, slot, phone) != "" then
                 after.info == st.info[slot := PhoneAfter(st, slot, phone)]
               else after == st
  {
  }

  lemma LoginGivesShare(w: World, slot: string, phone: Option<string>)
    requires Coherent(w.store) && NoRepeats(w.store.slots)
    ensures var after := Next(w, Login(slot, phone)).store;
            && after.OnDisk() == w.store.OnDisk()
            && if slot in w.store.slots && PhoneAfter(w.store, slot, phone) != "" then
                 && after.info == w.store.info[slot := PhoneAfter(w.store, slot, phone)]
                 && (|w.store.OnDisk()| >= LoggedInAmong(w.store.slots, after.info.Keys) ==>
                       Snapshot(after, slot, w.now).1 != [])
               else after == w.store
  {
    var after := SavedInfo(w.store, slot, phone);
    LoginIs(w.store, slot, phone);
    StepKeepsCoherent(w, Login(slot, phone));
    SnapshotIsDirect(after, slot, w.now);
    SliceIs(after.slots, after.info.Keys, slot, after.OnDisk());
  }

  /** The list is read again exactly when none is cached or it is 45 seconds old; until then, and after one
      snapshot of an account, further snapshots of it change nothing. */
  lemma {:induction false} ReadsAgainIff(st: Store, slot: string, now: int, later: int)
    requires now <= later
    ensures var first := Snapshot(st, slot, now).0;
            && (first.cache.loadedAt ==
                if st.cache.master.Some? && now - st.cache.loadedAt < 45 * 1000 then st.cache.loadedAt else now)
            && (later - first.cache.loadedAt < 45 * 1000 && later - first.cache.slices[slot].at < 45 * 1000 ==>
                  Snapshot(first, slot, later).0 == first)
            && (later - first.cache.loadedAt >= 45 * 1000 ==> Snapshot(first, slot, later).0.cache.loadedAt == later)
  {
  }
}
