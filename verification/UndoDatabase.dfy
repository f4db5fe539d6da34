/** The undo database: a stack of diffs that behaves like a stack of full snapshots. */
module UndoDatabases {
  import opened Common

  /** An object's id: its index (space and type) and its instance within the index. */
  datatype ObjectId = ObjectId(index: nat, instance: nat)

  /** The objects by id and the next free instance of every index. */
  datatype Db<V> = Db(objects: map<ObjectId, V>, nextIds: map<nat, nat>)

  /** Ids are given out in order. */
  predicate ValidDb<V>(db: Db<V>) {
    forall id :: id in db.objects ==> id.index in db.nextIds && id.instance < db.nextIds[id.index]
  }

  datatype UndoState<V> = UndoState(oldValues: map<ObjectId, V>, oldNextIds: map<nat, nat>,
                                    newIds: set<ObjectId>, removed: map<ObjectId, V>)

  function EmptyState<V>(): UndoState<V> { UndoState(map[], map[], {}, map[]) }

  datatype Cell<V> = Absent | Present(value: V)

  function At<K, V>(m: map<K, V>, k: K): Cell<V> { if k in m then Present(m[k]) else Absent }

  /** An object's relationship to a state: created, changed, removed, or untouched in it. */
  datatype Entry<V> = New | Upd(was: V) | Del(was: V) | Nop

  function EntryOf<V>(s: UndoState<V>, id: ObjectId): Entry<V> {
    if id in s.newIds then New
    else if id in s.oldValues then Upd(s.oldValues[id])
    else if id in s.removed then Del(s.removed[id])
    else Nop
  }

  /** No object has two relationships to a state. */
  ghost predicate Exclusive<V>(s: UndoState<V>) {
    forall id :: && (id in s.newIds ==> id !in s.oldValues && id !in s.removed)
                 && (id in s.oldValues ==> id !in s.removed)
  }

  /** The entry fits what the object is now: a new or changed object exists, a removed one does not. */
  predicate Fits<V>(e: Entry<V>, now: Cell<V>) {
    match e
    case New => now.Present?
    case Upd(_) => now.Present?
    case Del(_) => now.Absent?
    case Nop => true
  }

  /** What the object was before, given what it is now. */
  function Was<V>(e: Entry<V>, now: Cell<V>): Cell<V> {
    match e
    case New => Absent
    case Upd(x) => Present(x)
    case Del(x) => Present(x)
    case Nop => now
  }

  function NextWas<V>(s: UndoState<V>, index: nat, now: Cell<nat>): Cell<nat> {
    if index in s.oldNextIds then Present(s.oldNextIds[index]) else now
  }

  /** One object went from `before` to `after` as `s` records. */
  ghost predicate LeadsAt<V>(before: Db<V>, s: UndoState<V>, after: Db<V>, id: ObjectId) {
    && Fits(EntryOf(s, id), At(after.objects, id))
    && Was(EntryOf(s, id), At(after.objects, id)) == At(before.objects, id)
    && (id in s.newIds ==> id.index in s.oldNextIds && s.oldNextIds[id.index] <= id.instance)
    && (id in s.removed ==> id.index in after.nextIds && id.instance < after.nextIds[id.index])
  }

  ghost predicate NextLeadsAt<V>(before: Db<V>, s: UndoState<V>, after: Db<V>, index: nat) {
    && (index in s.oldNextIds ==> index in after.nextIds && s.oldNextIds[index] <= after.nextIds[index])
    && NextWas(s, index, At(after.nextIds, index)) == At(before.nextIds, index)
  }

  /** `s` is exactly the difference from `before` to `after`, and can be undone on `after`. */
  ghost predicate Leads<V>(before: Db<V>, s: UndoState<V>, after: Db<V>) {
    && Exclusive(s)
    && (forall id :: LeadsAt(before, s, after, id))
    && (forall index :: NextLeadsAt(before, s, after, index))
  }

  /** `db` with the changes recorded in `s` taken back. */
  function Revert<V>(s: UndoState<V>, db: Db<V>): Db<V> {
    Db(db.objects + s.oldValues - s.newIds + s.removed, db.nextIds + s.oldNextIds)
  }

  /** Undoing a difference gives back all of what was before. */
  lemma LeadsBack<V>(before: Db<V>, s: UndoState<V>, after: Db<V>)
    requires Leads(before, s, after)
    ensures Revert(s, after) == before
  {
    var r := Revert(s, after);
    forall id ensures At(r.objects, id) == At(before.objects, id) { assert LeadsAt(before, s, after, id); }
    SameMap(r.objects, before.objects);
    forall i ensures At(r.nextIds, i) == At(before.nextIds, i) { assert NextLeadsAt(before, s, after, i); }
    SameMap(r.nextIds, before.nextIds);
  }

  lemma SameMap<K(!new), V>(m: map<K, V>, n: map<K, V>)
    requires forall k :: At(m, k) == At(n, k)
    ensures m == n
  {
    forall k ensures k in m <==> k in n { assert At(m, k) == At(n, k); }
    forall k | k in m ensures m[k] == n[k] { assert At(m, k) == At(n, k); }
  }

  /** Recording a creation, as `on_create` does after the fact. */
  function Created<V>(s: UndoState<V>, id: ObjectId): UndoState<V> {
    s.(oldNextIds := if id.index in s.oldNextIds then s.oldNextIds else s.oldNextIds[id.index := id.instance],
       newIds := s.newIds + {id})
  }

  /** Recording a change of an object whose value was `v`. */
  function Modified<V>(s: UndoState<V>, id: ObjectId, v: V): UndoState<V> {
    if id in s.newIds || id in s.oldValues then s else s.(oldValues := s.oldValues[id := v])
  }

  /** Recording the removal of an object whose value was `v`. */
  function RemovedFrom<V>(s: UndoState<V>, id: ObjectId, v: V): UndoState<V> {
    if id in s.newIds then s.(newIds := s.newIds - {id})
    else if id in s.oldValues then
      s.(removed := s.removed[id := s.oldValues[id]], oldValues := s.oldValues - {id})
    else if id in s.removed then s
    else s.(removed := s.removed[id := v])
  }

  lemma CreatedLeads<V>(before: Db<V>, s: UndoState<V>, db: Db<V>, index: nat, v: V)
    requires Leads(before, s, db) && ValidDb(db) && index in db.nextIds
    ensures var id := ObjectId(index, db.nextIds[index]);
            var db' := Db(db.objects[id := v], db.nextIds[index := db.nextIds[index] + 1]);
            Leads(before, Created(s, id), db') && ValidDb(db')
  {
    var id := ObjectId(index, db.nextIds[index]);
    var db' := Db(db.objects[id := v], db.nextIds[index := db.nextIds[index] + 1]);
    var s' := Created(s, id);
    assert LeadsAt(before, s, db, id) && NextLeadsAt(before, s, db, index);
    assert EntryOf(s, id).Nop?;
    forall x ensures LeadsAt(before, s', db', x) {
      assert LeadsAt(before, s, db, x);
    }
    forall i ensures NextLeadsAt(before, s', db', i) {
      assert NextLeadsAt(before, s, db, i);
    }
  }

  lemma ModifiedLeads<V>(before: Db<V>, s: UndoState<V>, db: Db<V>, id: ObjectId, v: V)
    requires Leads(before, s, db) && ValidDb(db) && id in db.objects
    ensures var db' := db.(objects := db.objects[id := v]);
            Leads(before, Modified(s, id, db.objects[id]), db') && ValidDb(db')
  {
    var db' := db.(objects := db.objects[id := v]);
    var s' := Modified(s, id, db.objects[id]);
    assert LeadsAt(before, s, db, id);
    forall x ensures LeadsAt(before, s', db', x) {
      assert LeadsAt(before, s, db, x);
    }
    forall i ensures NextLeadsAt(before, s', db', i) {
      assert NextLeadsAt(before, s, db, i);
    }
  }

  lemma RemovedLeads<V>(before: Db<V>, s: UndoState<V>, db: Db<V>, id: ObjectId)
    requires Leads(before, s, db) && ValidDb(db) && id in db.objects
    ensures var db' := db.(objects := db.objects - {id});
            Leads(before, RemovedFrom(s, id, db.objects[id]), db') && ValidDb(db')
  {
    var db' := db.(objects := db.objects - {id});
    var s' := RemovedFrom(s, id, db.objects[id]);
    assert LeadsAt(before, s, db, id);
    forall x ensures LeadsAt(before, s', db', x) {
      assert LeadsAt(before, s, db, x);
    }
    forall i ensures NextLeadsAt(before, s', db', i) {
      assert NextLeadsAt(before, s, db, i);
    }
  }

  lemma EmptyLeads<V>(db: Db<V>)
    ensures Leads(db, EmptyState(), db)
  {}

  /** The 4x4 matrix: the entry of one object after merging its entry in the later state `b` into its
      entry in the earlier state `a`. */
  function Merged<V>(a: Entry<V>, b: Entry<V>): Entry<V> {
    match b
    case Nop => a
    case New => New
    case Upd(_) => if a.Nop? then b else a
    case Del(_) => if a.New? then Nop else if a.Upd? then Del(a.was) else b
  }

  /** Undoing the merged entry of an object is undoing both entries in turn. */
  lemma MatrixIsSound<V>(a: Entry<V>, b: Entry<V>, now: Cell<V>)
    requires Fits(b, now) && Fits(a, Was(b, now)) && !(a.Del? && b.New?)
    ensures Fits(Merged(a, b), now)
    ensures Was(Merged(a, b), now) == Was(a, Was(b, now))
  {}

  /** The composition of two states, `a` before `b`. */
  function Composed<V>(a: UndoState<V>, b: UndoState<V>): UndoState<V> {
    UndoState(
      a.oldValues + (b.oldValues - a.newIds - a.oldValues.Keys) - b.removed.Keys,
      b.oldNextIds + a.oldNextIds,
      a.newIds + b.newIds - b.removed.Keys,
      a.removed + map id | id in b.removed && id !in a.newIds ::
        (if id in a.oldValues then a.oldValues[id] else b.removed[id]))
  }

  lemma ComposedEntry<V>(a: UndoState<V>, b: UndoState<V>, id: ObjectId)
    requires Exclusive(a) && Exclusive(b)
    requires b.oldValues.Keys !! a.removed.Keys && b.newIds !! a.removed.Keys && b.removed.Keys !! a.removed.Keys
    ensures EntryOf(Composed(a, b), id) == Merged(EntryOf(a, id), EntryOf(b, id))
  {}

  lemma ComposedExclusive<V>(a: UndoState<V>, b: UndoState<V>)
    requires Exclusive(a) && Exclusive(b)
    requires b.oldValues.Keys !! a.removed.Keys && b.newIds !! a.removed.Keys && b.removed.Keys !! a.removed.Keys
    requires b.newIds !! a.oldValues.Keys
    ensures Exclusive(Composed(a, b))
  {}

  /** The combinations the matrix calls impossible: ids are not reused, so an object removed in `a` is not
      in `b` at all, and one created in `b` is not in `a`. */
  lemma CausalOrder<V>(before: Db<V>, a: UndoState<V>, middle: Db<V>, b: UndoState<V>, after: Db<V>)
    requires Leads(before, a, middle) && Leads(middle, b, after)
    ensures b.oldValues.Keys !! a.removed.Keys && b.newIds !! a.removed.Keys && b.removed.Keys !! a.removed.Keys
    ensures b.newIds !! a.oldValues.Keys && b.newIds !! a.newIds
  {
    forall id
      ensures id in a.removed ==> id !in b.oldValues && id !in b.newIds && id !in b.removed
      ensures id in b.newIds ==> id !in a.oldValues && id !in a.newIds
    {
      assert LeadsAt(before, a, middle, id) && LeadsAt(middle, b, after, id);
      if id in b.newIds {
        assert NextLeadsAt(middle, b, after, id.index);
      }
    }
  }

  /** Undoing the composition of two states is undoing the second and then the first. */
  lemma ComposedLeads<V>(before: Db<V>, a: UndoState<V>, middle: Db<V>, b: UndoState<V>, after: Db<V>)
    requires Leads(before, a, middle) && Leads(middle, b, after)
    ensures Leads(before, Composed(a, b), after)
  {
    hide Exclusive;
    CausalOrder(before, a, middle, b, after);
    ComposedExclusive(a, b);
    forall id ensures LeadsAt(before, Composed(a, b), after, id) {
      ComposedLeadsAt(before, a, middle, b, after, id);
    }
    forall i ensures NextLeadsAt(before, Composed(a, b), after, i) {
      assert NextLeadsAt(before, a, middle, i) && NextLeadsAt(middle, b, after, i);
    }
  }

  lemma ComposedLeadsAt<V>(before: Db<V>, a: UndoState<V>, middle: Db<V>, b: UndoState<V>, after: Db<V>, id: ObjectId)
    requires Leads(before, a, middle) && Leads(middle, b, after)
    ensures LeadsAt(before, Composed(a, b), after, id)
  {
    hide Exclusive, Merged;
    CausalOrder(before, a, middle, b, after);
    ComposedEntry(a, b, id);
    assert LeadsAt(before, a, middle, id) && LeadsAt(middle, b, after, id);
    assert NextLeadsAt(before, a, middle, id.index) && NextLeadsAt(middle, b, after, id.index);
    MatrixIsSound(EntryOf(a, id), EntryOf(b, id), At(after.objects, id));
  }

  // The loops of the source

  /** Copies into `m` the entries of `n` whose keys are in neither `skip` nor `m`. */
  method AddMissing<K(!new,==), V>(m: map<K, V>, n: map<K, V>, skip: set<K>) returns (r: map<K, V>)
    ensures r == m + (n - skip - m.Keys)
  {
    r := m;
    var todo := n.Keys;
    while todo != {}
      invariant todo <= n.Keys
      invariant forall k :: At(r, k) == if k in n && k !in todo && k !in skip && k !in m then At(n, k) else At(m, k)
    {
      var k :| k in todo;
      todo := todo - {k};
      if k !in skip && k !in r {
        assert At(r, k) == At(m, k);
        r := r[k := n[k]];
      }
    }
    var e := m + (n - skip - m.Keys);
    forall k ensures At(r, k) == At(e, k) {}
    SameMap(r, e);
  }

  /** The `*+del` pass: `new+del` becomes nothing, `upd(was=X)+del` becomes `del(was=X)`, and a removed
      object that was untouched stays removed. */
  method MergeRemoved<V>(oldValues0: map<ObjectId, V>, newIds0: set<ObjectId>, removed0: map<ObjectId, V>,
                         later: map<ObjectId, V>)
    returns (oldValues: map<ObjectId, V>, newIds: set<ObjectId>, removed: map<ObjectId, V>)
    requires newIds0 !! oldValues0.Keys
    ensures newIds == newIds0 - later.Keys
    ensures oldValues == oldValues0 - later.Keys
    ensures removed == removed0 + map id | id in later && id !in newIds0 ::
                         (if id in oldValues0 then oldValues0[id] else later[id])
  {
    oldValues, newIds, removed := oldValues0, newIds0, removed0;
    var todo := later.Keys;
    while todo != {}
      invariant todo <= later.Keys
      invariant newIds == newIds0 - (later.Keys - todo)
      invariant oldValues == oldValues0 - (later.Keys - todo)
      invariant forall id :: At(removed, id) ==
                  if id in later && id !in todo && id !in newIds0 then
                    (if id in oldValues0 then At(oldValues0, id) else At(later, id))
                  else At(removed0, id)
    {
      var id :| id in todo;
      todo := todo - {id};
      if id in newIds {
        newIds := newIds - {id};
      } else if id in oldValues {
        removed := removed[id := oldValues[id]];
        oldValues := oldValues - {id};
      } else {
        removed := removed[id := later[id]];
      }
    }
    var e := removed0 + map id | id in later && id !in newIds0 ::
                          (if id in oldValues0 then oldValues0[id] else later[id]);
    forall id ensures At(removed, id) == At(e, id) {}
    SameMap(removed, e);
  }

  lemma RemovedPart<V>(a: UndoState<V>, b: UndoState<V>)
    requires Exclusive(a) && Exclusive(b)
    ensures var oldValues := a.oldValues + (b.oldValues - a.newIds - a.oldValues.Keys);
            (map id | id in b.removed && id !in a.newIds + b.newIds ::
               (if id in oldValues then oldValues[id] else b.removed[id]))
            == map id | id in b.removed && id !in a.newIds ::
                 (if id in a.oldValues then a.oldValues[id] else b.removed[id])
  {}

  /** Merges the later state `b` into the earlier state `a`, container by container. */
  method MergeStates<V>(a: UndoState<V>, b: UndoState<V>) returns (c: UndoState<V>)
    requires Exclusive(a) && Exclusive(b) && b.newIds !! a.oldValues.Keys
    ensures c == Composed(a, b)
  {
    hide Exclusive;
    var oldValues := AddMissing(a.oldValues, b.oldValues, a.newIds);
    var newIds := a.newIds + b.newIds;
    var oldNextIds := AddMissing(a.oldNextIds, b.oldNextIds, {});
    assert newIds !! oldValues.Keys by { NewIsNotOld(a, b); }
    var oldValues', newIds', removed := MergeRemoved(oldValues, newIds, a.removed, b.removed);
    c := UndoState(oldValues', oldNextIds, newIds', removed);
    RemovedPart(a, b);
    NextPart(a.oldNextIds, b.oldNextIds);
  }

  lemma NewIsNotOld<V>(a: UndoState<V>, b: UndoState<V>)
    requires Exclusive(a) && Exclusive(b) && b.newIds !! a.oldValues.Keys
    ensures a.newIds + b.newIds !! (a.oldValues + (b.oldValues - a.newIds - a.oldValues.Keys)).Keys
  {}

  lemma NextPart(m: map<nat, nat>, n: map<nat, nat>)
    ensures m + (n - {} - m.Keys) == n + m
  {}

  method PutAll<K(!new,==), V>(m: map<K, V>, n: map<K, V>) returns (r: map<K, V>)
    ensures r == m + n
  {
    r := m;
    var todo := n.Keys;
    while todo != {}
      invariant todo <= n.Keys
      invariant r == m + (n - todo)
    {
      var k :| k in todo;
      todo := todo - {k};
      r := r[k := n[k]];
    }
    assert n - {} == n;
  }

  /** Undoing a state touches objects as it must: it changes and removes existing ones and inserts
      missing ones. */
  lemma LeadsIsUndoable<V>(before: Db<V>, s: UndoState<V>, db: Db<V>)
    requires Leads(before, s, db)
    ensures s.oldValues.Keys <= db.objects.Keys
    ensures s.newIds <= (db.objects + s.oldValues).Keys
    ensures s.removed.Keys !! (db.objects + s.oldValues - s.newIds).Keys
    ensures s.oldNextIds.Keys <= db.nextIds.Keys
  {
    forall id
      ensures id in s.oldValues || id in s.newIds ==> id in db.objects
      ensures id in s.removed ==> id !in db.objects && id !in s.oldValues
    {
      assert LeadsAt(before, s, db, id);
    }
    forall i ensures i in s.oldNextIds ==> i in db.nextIds { assert NextLeadsAt(before, s, db, i); }
  }

  /** The body shared by `undo` and `pop_commit`. */
  method Undone<V>(s: UndoState<V>, db: Db<V>, ghost before: Db<V>) returns (r: Db<V>)
    requires Leads(before, s, db)
    ensures r == before
  {
    LeadsIsUndoable(before, s, db);
    assert s.oldValues.Keys <= db.objects.Keys;                    // each is found and modified
    var objects := PutAll(db.objects, s.oldValues);
    assert s.newIds <= objects.Keys;                               // each is found and removed
    var todo := s.newIds;
    ghost var modified := objects;
    while todo != {}
      invariant todo <= s.newIds
      invariant objects == modified - (s.newIds - todo)
    {
      var id :| id in todo;
      todo := todo - {id};
      objects := objects - {id};
    }
    var nextIds := PutAll(db.nextIds, s.oldNextIds);
    assert s.removed.Keys !! objects.Keys;                         // each is missing and inserted
    objects := PutAll(objects, s.removed);
    r := Db(objects, nextIds);
    LeadsBack(before, s, db);
  }

  /** What the database was when the state after the `k`-th began, or is now. */
  function Following<V>(snapshots: seq<Db<V>>, db: Db<V>, k: nat): Db<V> {
    if k + 1 < |snapshots| then snapshots[k + 1] else db
  }

  ghost predicate History<V>(stack: seq<UndoState<V>>, snapshots: seq<Db<V>>, db: Db<V>) {
    && |snapshots| == |stack|
    && forall k :: 0 <= k < |stack| ==> Leads(snapshots[k], stack[k], Following(snapshots, db, k))
  }

  class UndoDatabase<V> {
    var db: Db<V>
    var stack: seq<UndoState<V>>
    var activeSessions: nat
    var disabled: bool
    var maxSize: nat
    ghost var snapshots: seq<Db<V>>     // the database when each state of the stack began

    /** The history is faithful: each diff leads from the snapshot it began at to the next one, and the
        last leads to the present. */
    ghost predicate Faithful()
      reads this
    {
      && ValidDb(db) && (forall k :: 0 <= k < |snapshots| ==> ValidDb(snapshots[k]))
      && History(stack, snapshots, db)
    }

    /** Every active session has its state on the stack. */
    ghost predicate WellNested()
      reads this
    {
      activeSessions <= |stack|
    }

    constructor (db: Db<V>)
      requires ValidDb(db)
      ensures Faithful() && WellNested() && this.db == db && stack == [] && disabled && activeSessions == 0
      ensures maxSize == 256
    {
      this.db, stack, activeSessions, disabled, maxSize, snapshots := db, [], 0, true, 256, [];
    }

    method Enable()
      modifies this`disabled
      ensures !disabled
    {
      disabled := false;
    }

    method Disable()
      modifies this`disabled
      ensures disabled
    {
      disabled := true;
    }

    method SetMaxSize(n: nat)
      modifies this`maxSize
      ensures maxSize == n
    {
      maxSize := n;
    }

    /** What the stack begins with when a change is recorded outside any session. */
    method EnsureState()
      requires Faithful()
      modifies this`stack, this`snapshots
      ensures Faithful() && stack != []
      ensures old(stack) != [] ==> stack == old(stack) && snapshots == old(snapshots)
      ensures old(stack) == [] ==> stack == [EmptyState()] && snapshots == [db]
    {
      hide Leads, ValidDb;
      if stack == [] {
        EmptyLeads(db);
        stack, snapshots := [EmptyState()], [db];
      }
    }

    /** `start_undo_session`.  The oldest states are dropped until the stack fits; a session nested deeper
        than the maximum size would lose its own state. */
    method StartSession(forceEnable: bool) returns (started: bool, disableOnExit: bool)
      requires Faithful()
      modifies this`stack, this`snapshots, this`activeSessions, this`disabled
      ensures Faithful() && db == old(db)
      ensures started == (!old(disabled) || forceEnable) && disableOnExit == (old(disabled) && forceEnable)
      ensures !started ==> && stack == old(stack) && snapshots == old(snapshots)
                           && disabled && activeSessions == old(activeSessions)
      ensures started ==>
                && !disabled && activeSessions == old(activeSessions) + 1
                && stack == Newest(old(stack), maxSize) + [EmptyState()]
                && snapshots == Newest(old(snapshots), maxSize) + [db]
      ensures started && old(WellNested()) ==> (WellNested() <==> old(activeSessions <= maxSize))
    {
      hide Leads, ValidDb, Newest;
      if disabled && !forceEnable { return false, false; }
      disableOnExit := disabled && forceEnable;
      if forceEnable { disabled := false; }
      DropOldest();
      NewestLength(old(stack), maxSize);
      NewestLength(old(snapshots), maxSize);
      EmptyLeads(db);
      stack, snapshots := stack + [EmptyState()], snapshots + [db];
      activeSessions := activeSessions + 1;
      started := true;
    }

    /** The oldest states are dropped until the stack fits. */
    method DropOldest()
      requires Faithful()
      modifies this`stack, this`snapshots
      ensures Faithful() && stack == Newest(old(stack), maxSize) && snapshots == Newest(old(snapshots), maxSize)
    {
      hide Leads, ValidDb;
      while |stack| > maxSize
        invariant Faithful() && |stack| <= |old(stack)| && (|stack| == |old(stack)| || |stack| >= maxSize)
        invariant stack == old(stack)[|old(stack)| - |stack|..]
        invariant snapshots == old(snapshots)[|old(snapshots)| - |snapshots|..]
      {
        stack, snapshots := stack[1..], snapshots[1..];
      }
    }

    /** Creates an object with the next id of an index; `on_create` records it. */
    method Create(index: nat, v: V) returns (created: bool)
      requires Faithful()
      modifies this`db, this`stack, this`snapshots
      ensures created == (index in old(db).nextIds)
      ensures !created ==> db == old(db) && stack == old(stack) && snapshots == old(snapshots)
      ensures created ==> var id := ObjectId(index, old(db).nextIds[index]);
                          id !in old(db).objects && db.objects == old(db).objects[id := v]
                          && db.nextIds == old(db).nextIds[index := id.instance + 1]
      ensures !disabled ==> Faithful()
      ensures !disabled && created ==> snapshots == if old(stack) == [] then [old(db)] else old(snapshots)
      ensures disabled ==> stack == old(stack) && snapshots == old(snapshots) && (stack == [] ==> Faithful())
    {
      hide Leads, Created, Modified, RemovedFrom;
      if index !in db.nextIds { return false; }
      var id := ObjectId(index, db.nextIds[index]);
      if !disabled {
        EnsureState();
        var top := |stack| - 1;
        CreatedLeads(snapshots[top], stack[top], db, index, v);
        stack := stack[top := Created(stack[top], id)];
      }
      db := Db(db.objects[id := v], db.nextIds[index := db.nextIds[index] + 1]);
      created := true;
    }

    /** Changes an object; `on_modify` records its value first. */
    method Modify(id: ObjectId, v: V) returns (found: bool)
      requires Faithful()
      modifies this`db, this`stack, this`snapshots
      ensures found == (id in old(db).objects)
      ensures !found ==> db == old(db) && stack == old(stack) && snapshots == old(snapshots)
      ensures found ==> db == old(db).(objects := old(db).objects[id := v])
      ensures !disabled ==> Faithful()
      ensures !disabled && found ==> snapshots == if old(stack) == [] then [old(db)] else old(snapshots)
      ensures disabled ==> stack == old(stack) && snapshots == old(snapshots) && (stack == [] ==> Faithful())
    {
      hide Leads, Created, Modified, RemovedFrom;
      if id !in db.objects { return false; }
      if !disabled {
        EnsureState();
        var top := |stack| - 1;
        ModifiedLeads(snapshots[top], stack[top], db, id, v);
        stack := stack[top := Modified(stack[top], id, db.objects[id])];
      }
      db := db.(objects := db.objects[id := v]);
      found := true;
    }

    /** Removes an object; `on_remove` records it first. */
    method Remove(id: ObjectId) returns (found: bool)
      requires Faithful()
      modifies this`db, this`stack, this`snapshots
      ensures found == (id in old(db).objects)
      ensures !found ==> db == old(db) && stack == old(stack) && snapshots == old(snapshots)
      ensures found ==> db == old(db).(objects := old(db).objects - {id})
      ensures !disabled ==> Faithful()
      ensures !disabled && found ==> snapshots == if old(stack) == [] then [old(db)] else old(snapshots)
      ensures disabled ==> stack == old(stack) && snapshots == old(snapshots) && (stack == [] ==> Faithful())
    {
      hide Leads, Created, Modified, RemovedFrom;
      if id !in db.objects { return false; }
      if !disabled {
        EnsureState();
        var top := |stack| - 1;
        RemovedLeads(snapshots[top], stack[top], db, id);
        stack := stack[top := RemovedFrom(stack[top], id, db.objects[id])];
      }
      db := db.(objects := db.objects - {id});
      found := true;
    }

    /** Takes back the top state: the database is exactly what it was when the state began. */
    method RevertTop()
      requires Faithful() && stack != []
      modifies this`db, this`stack, this`snapshots
      ensures Faithful()
      ensures db == old(snapshots)[|old(snapshots)| - 1]
      ensures stack == old(stack)[..|old(stack)| - 1] && snapshots == old(snapshots)[..|old(snapshots)| - 1]
    {
      hide Leads, ValidDb;
      var top := |stack| - 1;
      db := Undone(stack[top], db, snapshots[top]);
      stack, snapshots := stack[..top], snapshots[..top];
    }

    /** `undo` of the innermost session. */
    method Undo() returns (ok: bool)
      requires Faithful() && WellNested()
      modifies this`db, this`stack, this`snapshots, this`activeSessions
      ensures Faithful() && WellNested()
      ensures ok == (!disabled && old(activeSessions) > 0)
      ensures !ok ==> && db == old(db) && stack == old(stack) && snapshots == old(snapshots)
                      && activeSessions == old(activeSessions)
      ensures ok ==> db == old(snapshots)[|old(snapshots)| - 1]
                     && stack == old(stack)[..|old(stack)| - 1] && snapshots == old(snapshots)[..|old(snapshots)| - 1]
                     && activeSessions == old(activeSessions) - 1
    {
      if disabled || activeSessions == 0 { return false; }
      RevertTop();
      activeSessions := activeSessions - 1;
      ok := true;
    }

    /** The end of a session's life: it is undone unless it was committed or merged before, and a session that enabled
        the database disables it again. */
    method EndSession(applyUndo: bool, disableOnExit: bool)
      requires Faithful() && WellNested()
      modifies this`db, this`stack, this`snapshots, this`activeSessions, this`disabled
      ensures Faithful() && WellNested() && disabled == (old(disabled) || disableOnExit)
      ensures applyUndo && !old(disabled) && old(activeSessions) > 0 ==>
                && db == old(snapshots)[|old(snapshots)| - 1] && activeSessions == old(activeSessions) - 1
                && stack == old(stack)[..|old(stack)| - 1] && snapshots == old(snapshots)[..|old(snapshots)| - 1]
      ensures !applyUndo || old(disabled) || old(activeSessions) == 0 ==>
                && db == old(db) && stack == old(stack) && snapshots == old(snapshots)
                && activeSessions == old(activeSessions)
    {
      hide History, ValidDb;
      if applyUndo { var undone := Undo(); }
      if disableOnExit { Disable(); }
    }

    /** `merge` of the innermost session into the state below it; the only state there is, is dropped. */
    method Merge() returns (ok: bool)
      requires Faithful() && WellNested()
      modifies this`stack, this`snapshots, this`activeSessions
      ensures Faithful() && WellNested() && db == old(db)
      ensures ok == (old(activeSessions) > 0)
      ensures !ok ==> stack == old(stack) && snapshots == old(snapshots) && activeSessions == old(activeSessions)
      ensures ok ==> snapshots == (if |old(stack)| == 1 then [] else old(snapshots)[..|old(snapshots)| - 1])
                     && activeSessions == old(activeSessions) - 1
    {
      if activeSessions == 0 { return false; }
      if activeSessions == 1 && |stack| == 1 {
        stack, snapshots, activeSessions := [], [], 0;
        return true;
      }
      hide Leads, ValidDb;
      var n := |stack|;
      ghost var before, middle := snapshots[n - 2], snapshots[n - 1];
      CausalOrder(before, stack[n - 2], middle, stack[n - 1], db);
      ComposedLeads(before, stack[n - 2], middle, stack[n - 1], db);
      LeadsExclusive(before, stack[n - 2], middle);
      LeadsExclusive(middle, stack[n - 1], db);
      var merged := MergeStates(stack[n - 2], stack[n - 1]);
      stack := stack[..n - 2] + [merged];
      snapshots := snapshots[..n - 1];
      activeSessions := activeSessions - 1;
      ok := true;
    }

    /** `commit`: the state stays on the stack without a session. */
    method Commit() returns (ok: bool)
      requires WellNested()
      modifies this`activeSessions
      ensures WellNested()
      ensures ok == (old(activeSessions) > 0)
      ensures activeSessions == if ok then old(activeSessions) - 1 else old(activeSessions)
    {
      ok := activeSessions > 0;
      if ok { activeSessions := activeSessions - 1; }
    }

    /** `pop_commit`: takes back the last committed state, and leaves the database enabled. */
    method PopCommit() returns (ok: bool)
      requires Faithful()
      modifies this`db, this`stack, this`snapshots, this`disabled
      ensures Faithful()
      ensures ok == (activeSessions == 0 && old(stack) != [])
      ensures !ok ==> db == old(db) && stack == old(stack) && snapshots == old(snapshots) && disabled == old(disabled)
      ensures ok ==> db == old(snapshots)[|old(snapshots)| - 1] && !disabled
                     && stack == old(stack)[..|old(stack)| - 1] && snapshots == old(snapshots)[..|old(snapshots)| - 1]
    {
      if activeSessions != 0 || stack == [] { return false; }
      RevertTop();
      disabled := false;
      ok := true;
    }
  }

  lemma LeadsExclusive<V>(before: Db<V>, s: UndoState<V>, after: Db<V>)
    requires Leads(before, s, after)
    ensures Exclusive(s)
  {}

  /** Reverting the top states one after the other. */
  function RevertAll<V>(states: seq<UndoState<V>>, db: Db<V>): Db<V> {
    if states == [] then db else RevertAll(states[..|states| - 1], Revert(states[|states| - 1], db))
  }

  /** In a faithful history, reverting the top `k` diffs gives exactly the objects and next ids at the start
      of the `k`-th session from the top. */
  lemma {:induction false} RevertToSnapshot<V>(stack: seq<UndoState<V>>, snapshots: seq<Db<V>>, db: Db<V>, k: nat)
    requires History(stack, snapshots, db) && k <= |stack|
    ensures RevertAll(stack[|stack| - k..], db) == if k == 0 then db else snapshots[|stack| - k]
  {
    hide Leads, Revert;
    var n := |stack|;
    if k == 0 {
      assert stack[n..] == [];
    } else {
      assert Following(snapshots, db, n - 1) == db;
      LeadsBack(snapshots[n - 1], stack[n - 1], db);
      forall i | 0 <= i < n - 1
        ensures Following(snapshots[..n - 1], snapshots[n - 1], i) == Following(snapshots, db, i)
      {}
      RevertToSnapshot(stack[..n - 1], snapshots[..n - 1], snapshots[n - 1], k - 1);
      assert stack[n - k..][..k - 1] == stack[..n - 1][n - k..];
    }
  }
}
