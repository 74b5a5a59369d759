/**
 The `devices` table. Two keys identify a handset: the device id (unique by schema) and the
 hardware id (kept unique by the upsert alone; the schema only indexes it).
 */
module DeviceTable {
  import opened Wrappers
  import opened Protocol

  datatype Row = Row(
    id: nat, name: string, deviceId: Uuid, publicKey: string, lastSeen: int, paired: bool,
    hardwareId: Option<string>)

  datatype DbError = UniqueViolation | ForeignKeyViolation

  /** Rows in insertion order; `lastId` is the AUTOINCREMENT counter. */
  datatype Table = Table(rows: seq<Row>, lastId: nat)

  function FindHardware(rows: seq<Row>, hw: string): (i: nat)
    ensures i < |rows| ==> rows[i].hardwareId == Some(hw)
    ensures forall k | 0 <= k < i && k < |rows| :: rows[k].hardwareId != Some(hw)
    ensures i <= |rows|
  {
    if rows == [] || rows[0].hardwareId == Some(hw) then 0 else 1 + FindHardware(rows[1..], hw)
  }

  function FindDevice(rows: seq<Row>, d: Uuid): (i: nat)
    ensures i < |rows| ==> rows[i].deviceId == d
    ensures forall k | 0 <= k < i && k < |rows| :: rows[k].deviceId != d
    ensures i <= |rows|
  {
    if rows == [] || rows[0].deviceId == d then 0 else 1 + FindDevice(rows[1..], d)
  }

  /** The hardware id names row `i`: that row takes the whole new identity, or the database refuses. */
  function Adopt(t: Table, i: nat, d: Row, referenced: set<Uuid>): (Table, Result<(), DbError>)
    requires i < |t.rows|
  {
    var row := t.rows[i];
    if exists k | 0 <= k < |t.rows| :: k != i && t.rows[k].deviceId == d.deviceId then (t, Err(UniqueViolation))
    else if d.deviceId != row.deviceId && row.deviceId in referenced then (t, Err(ForeignKeyViolation))
    else (t.(rows := t.rows[i := d.(id := row.id)]), Ok(()))
  }

  /** INSERT … ON CONFLICT(device_id): `paired` survives, and so does a hardware id the caller omits. */
  function Merge(t: Table, d: Row): Table {
    var i := FindDevice(t.rows, d.deviceId);
    if i == |t.rows| then Table(t.rows + [d.(id := t.lastId + 1)], t.lastId + 1)
    else
      var row := t.rows[i];
      t.(rows := t.rows[i := row.(
        name := d.name, publicKey := d.publicKey, lastSeen := d.lastSeen,
        hardwareId := if d.hardwareId.Some? then d.hardwareId else row.hardwareId)])
  }

  function Upsert(t: Table, d: Row, referenced: set<Uuid>): (Table, Result<(), DbError>) {
    if d.hardwareId.Some? && FindHardware(t.rows, d.hardwareId.value) < |t.rows|
    then Adopt(t, FindHardware(t.rows, d.hardwareId.value), d, referenced)
    else (Merge(t, d), Ok(()))
  }

  function Without(rows: seq<Row>, d: Uuid): (r: seq<Row>)
    ensures forall row :: row in r <==> row in rows && row.deviceId != d
  {
    if rows == [] then []
    else
      assert rows == [rows[0]] + rows[1..];
      (if rows[0].deviceId == d then [] else [rows[0]]) + Without(rows[1..], d)
  }

  function Touched(rows: seq<Row>, d: Uuid, at: int): (r: seq<Row>)
    ensures |r| == |rows|
    ensures forall i | 0 <= i < |r| ::
      r[i] == if rows[i].deviceId == d then rows[i].(lastSeen := at) else rows[i]
  {
    seq(|rows|, i requires 0 <= i < |rows| =>
      if rows[i].deviceId == d then rows[i].(lastSeen := at) else rows[i])
  }

  class Devices {
    var rows: seq<Row>
    var lastId: nat

    function View(): Table
      reads this
    {
      Table(rows, lastId)
    }

    constructor ()
      ensures View() == Table([], 0)
    {
      rows, lastId := [], 0;
    }

    /**
     A SELECT by hardware id, then an UPDATE by primary key or an INSERT with a conflict
     clause. `referenced` is the set of device ids some child table refers to.
     */
    method UpsertDevice(d: Row, referenced: set<Uuid>) returns (r: Result<(), DbError>)
      modifies this
      ensures (View(), r) == Upsert(old(View()), d, referenced)
    {
      if d.hardwareId.Some? {
        var i := FindHardware(rows, d.hardwareId.value);
        if i < |rows| {
          r := UpdateById(i, d, referenced);
          return;
        }
      }
      var i := FindDevice(rows, d.deviceId);
      if i == |rows| {
        lastId := lastId + 1;
        rows := rows + [d.(id := lastId)];
      } else {
        var hw := if d.hardwareId.Some? then d.hardwareId else rows[i].hardwareId;
        rows := rows[i := rows[i].(name := d.name, publicKey := d.publicKey, lastSeen := d.lastSeen, hardwareId := hw)];
      }
      r := Ok(());
    }

    method UpdateById(i: nat, d: Row, referenced: set<Uuid>) returns (r: Result<(), DbError>)
      requires i < |rows|
      modifies this
      ensures (View(), r) == Adopt(old(View()), i, d, referenced)
    {
      var k := 0;
      while k < |rows|
        invariant k <= |rows| && View() == old(View())
        invariant forall j | 0 <= j < k :: j != i ==> rows[j].deviceId != d.deviceId
      {
        if k != i && rows[k].deviceId == d.deviceId {
          return Err(UniqueViolation);
        }
        k := k + 1;
      }
      if d.deviceId != rows[i].deviceId && rows[i].deviceId in referenced {
        return Err(ForeignKeyViolation);
      }
      rows := rows[i := d.(id := rows[i].id)];
      r := Ok(());
    }

    method RemoveDevice(d: Uuid)
      modifies this
      ensures View() == old(View()).(rows := Without(old(rows), d))
    {
      rows := Without(rows, d);
    }

    method TouchDevice(d: Uuid, at: int)
      modifies this
      ensures View() == old(View()).(rows := Touched(old(rows), d, at))
    {
      rows := Touched(rows, d, at);
    }
  }

  // ---------------------------------------------------------------------------
  // Runs
  // ---------------------------------------------------------------------------

  datatype Op = Put(row: Row, referenced: set<Uuid>) | Remove(d: Uuid) | Touch(d: Uuid, at: int)

  function Next(t: Table, op: Op): Table {
    match op
    case Put(row, referenced) => Upsert(t, row, referenced).0
    case Remove(d) => t.(rows := Without(t.rows, d))
    case Touch(d, at) => t.(rows := Touched(t.rows, d, at))
  }

  function Run(t: Table, ops: seq<Op>): Table {
    if ops == [] then t else Next(Run(t, ops[..|ops| - 1]), ops[|ops| - 1])
  }

  /** At most one row per primary key, per device id and per hardware id. */
  ghost predicate Consistent(t: Table) {
    && (forall i | 0 <= i < |t.rows| :: t.rows[i].id <= t.lastId)
    && AllApart(t.rows)
  }

  ghost predicate AllApart(rows: seq<Row>) {
    forall i, j | 0 <= i < j < |rows| :: Apart(rows[i], rows[j])
  }

  predicate Apart(a: Row, b: Row) {
    && a.id != b.id
    && a.deviceId != b.deviceId
    && (a.hardwareId.Some? ==> a.hardwareId != b.hardwareId)
  }

  /** The row shows what the caller said about the device. */
  predicate CarriesIdentity(row: Row, d: Row) {
    && row.deviceId == d.deviceId && (d.hardwareId.Some? ==> row.hardwareId == d.hardwareId)
    && row.name == d.name && row.publicKey == d.publicKey && row.lastSeen == d.lastSeen
  }

  /** An upsert appends at most one row, rewrites at most one, and never changes a primary key. */
  lemma UpsertIsLocal(t: Table, d: Row, referenced: set<Uuid>)
    ensures var (t', r) := Upsert(t, d, referenced);
      && |t.rows| <= |t'.rows| <= |t.rows| + 1
      && (|t'.rows| == |t.rows| + 1 ==>
            t'.rows[..|t.rows|] == t.rows && t'.rows[|t.rows|].id == t.lastId + 1 == t'.lastId)
      && (|t'.rows| == |t.rows| ==> t'.lastId == t.lastId)
      && (forall i | 0 <= i < |t.rows| :: t'.rows[i].id == t.rows[i].id)
      && (forall i, j | 0 <= i < |t.rows| && 0 <= j < |t.rows| ::
            t'.rows[i] != t.rows[i] && t'.rows[j] != t.rows[j] ==> i == j)
      && (r.Err? ==> t' == t)
      && (r.Ok? ==> exists i | 0 <= i < |t'.rows| ::
            CarriesIdentity(t'.rows[i], d))
  {
    var (t', r) := Upsert(t, d, referenced);
    if d.hardwareId.Some? && FindHardware(t.rows, d.hardwareId.value) < |t.rows| {
      var i := FindHardware(t.rows, d.hardwareId.value);
      assert r.Ok? ==> CarriesIdentity(t'.rows[i], d);
    } else {
      var i := FindDevice(t.rows, d.deviceId);
      assert CarriesIdentity(t'.rows[i], d);
    }
  }

  /**
   The database refuses exactly a new device id for a known handset that either belongs to
   another row or leaves child rows behind; merging on the device id is never refused.
   */
  lemma UpsertRefusedIff(t: Table, d: Row, referenced: set<Uuid>, i: nat)
    requires Consistent(t) && i < |t.rows| && d.hardwareId.Some? && t.rows[i].hardwareId == d.hardwareId
    ensures Upsert(t, d, referenced).1.Err? <==>
      d.deviceId != t.rows[i].deviceId &&
      ((exists row | row in t.rows :: row.deviceId == d.deviceId) || t.rows[i].deviceId in referenced)
  {
    HolderIsFound(t, i, t.rows[i].id, d.hardwareId.value);
    assert forall k | 0 <= k < i :: Apart(t.rows[k], t.rows[i]);
    assert forall k | i < k < |t.rows| :: Apart(t.rows[i], t.rows[k]);
  }

  lemma UpsertKeepsConsistent(t: Table, d: Row, referenced: set<Uuid>)
    requires Consistent(t)
    ensures Consistent(Upsert(t, d, referenced).0)
  {
    UpsertIsLocal(t, d, referenced);
    var t' := Upsert(t, d, referenced).0;
    forall i, j | 0 <= i < j < |t'.rows|
      ensures Apart(t'.rows[i], t'.rows[j])
    {
      if j < |t.rows| {
        assert Apart(t.rows[i], t.rows[j]);
      }
    }
    forall i | 0 <= i < |t'.rows|
      ensures t'.rows[i].id <= t'.lastId
    {
      if i < |t.rows| {
        assert t.rows[i].id <= t.lastId;
      }
    }
  }

  lemma {:induction false} WithoutKeepsConsistent(rows: seq<Row>, d: Uuid)
    requires AllApart(rows)
    ensures AllApart(Without(rows, d))
  {
    if rows != [] {
      WithoutKeepsConsistent(rows[1..], d);
      var rest := Without(rows[1..], d);
      forall k | 0 <= k < |rest|
        ensures Apart(rows[0], rest[k])
      {
        assert rest[k] in rows[1..];
        var j :| 0 <= j < |rows[1..]| && rows[1..][j] == rest[k];
        assert Apart(rows[0], rows[j + 1]);
      }
      var r := Without(rows, d);
      if rows[0].deviceId == d {
        assert r == rest;
      } else {
        assert r == [rows[0]] + rest;
      }
    }
  }

  lemma NextKeepsConsistent(t: Table, op: Op)
    requires Consistent(t)
    ensures Consistent(Next(t, op))
  {
    match op {
      case Put(row, referenced) => UpsertKeepsConsistent(t, row, referenced);
      case Remove(d) =>
        WithoutKeepsConsistent(t.rows, d);
        forall i | 0 <= i < |Next(t, op).rows|
          ensures Next(t, op).rows[i].id <= t.lastId
        {
          assert Next(t, op).rows[i] in t.rows;
        }
      case Touch(d, at) =>
        var rows := Touched(t.rows, d, at);
        forall i, j | 0 <= i < j < |rows|
          ensures Apart(rows[i], rows[j])
        {
          assert Apart(t.rows[i], t.rows[j]);
        }
    }
  }

  /** Whatever the sequence of calls, no device id and no hardware id ever has two rows. */
  lemma {:induction false} RunKeepsConsistent(t: Table, ops: seq<Op>)
    requires Consistent(t)
    ensures Consistent(Run(t, ops))
  {
    if ops != [] {
      RunKeepsConsistent(t, ops[..|ops| - 1]);
      NextKeepsConsistent(Run(t, ops[..|ops| - 1]), ops[|ops| - 1]);
    }
  }

  // ---------------------------------------------------------------------------
  // A handset keeps its row
  // ---------------------------------------------------------------------------

  predicate IsRowOf(row: Row, r: nat, hw: string) {
    row.id == r && row.hardwareId == Some(hw)
  }

  /** Row `r` belongs to the handset with hardware id `hw`. */
  ghost predicate Holds(t: Table, r: nat, hw: string) {
    exists i | 0 <= i < |t.rows| :: IsRowOf(t.rows[i], r, hw)
  }

  /**
   The two calls that take the row away: removing the device id it has now, or an upsert of
   that device id under another hardware id the table does not know.
   */
  predicate Loses(t: Table, hw: string, op: Op) {
    var i := FindHardware(t.rows, hw);
    i < |t.rows| &&
    match op
    case Put(row, _) =>
      && row.deviceId == t.rows[i].deviceId
      && row.hardwareId.Some? && row.hardwareId.value != hw
      && FindHardware(t.rows, row.hardwareId.value) == |t.rows|
    case Remove(d) => d == t.rows[i].deviceId
    case Touch(_, _) => false
  }

  /** The row index a consistent table gives the handset is the one the search finds. */
  lemma HolderIsFound(t: Table, i: nat, r: nat, hw: string)
    requires Consistent(t) && i < |t.rows| && IsRowOf(t.rows[i], r, hw)
    ensures FindHardware(t.rows, hw) == i
  {
    assert forall k | 0 <= k < i :: Apart(t.rows[k], t.rows[i]);
  }

  lemma PutKeepsRow(t: Table, i: nat, r: nat, hw: string, d: Row, referenced: set<Uuid>)
    requires Consistent(t) && i < |t.rows| && IsRowOf(t.rows[i], r, hw)
    ensures Holds(Upsert(t, d, referenced).0, r, hw) <==> !Loses(t, hw, Put(d, referenced))
  {
    HolderIsFound(t, i, r, hw);
    UpsertIsLocal(t, d, referenced);
    var t' := Upsert(t, d, referenced).0;
    UpsertKeepsConsistent(t, d, referenced);
    if Loses(t, hw, Put(d, referenced)) {
      var k := FindDevice(t.rows, d.deviceId);
      assert k == i by {
        assert forall j | 0 <= j < i :: Apart(t.rows[j], t.rows[i]);
      }
      assert t'.rows[i].hardwareId == d.hardwareId;
      forall j | 0 <= j < |t'.rows|
        ensures !IsRowOf(t'.rows[j], r, hw)
      {
        assert j < i ==> Apart(t'.rows[j], t'.rows[i]);
        assert j > i ==> Apart(t'.rows[i], t'.rows[j]);
      }
    } else {
      assert IsRowOf(t'.rows[i], r, hw);
    }
  }

  lemma RemoveKeepsRow(t: Table, i: nat, r: nat, hw: string, d: Uuid)
    requires Consistent(t) && i < |t.rows| && IsRowOf(t.rows[i], r, hw)
    ensures Holds(Next(t, Remove(d)), r, hw) <==> !Loses(t, hw, Remove(d))
  {
    HolderIsFound(t, i, r, hw);
    var rest := Without(t.rows, d);
    if d != t.rows[i].deviceId {
      assert t.rows[i] in rest;
      var j :| 0 <= j < |rest| && rest[j] == t.rows[i];
      assert IsRowOf(Next(t, Remove(d)).rows[j], r, hw);
    } else {
      forall j | 0 <= j < |rest|
        ensures !IsRowOf(rest[j], r, hw)
      {
        assert rest[j] in t.rows;
        var k :| 0 <= k < |t.rows| && t.rows[k] == rest[j];
        assert k < i ==> Apart(t.rows[k], t.rows[i]);
        assert k > i ==> Apart(t.rows[i], t.rows[k]);
      }
    }
  }

  lemma NextKeepsRow(t: Table, op: Op, r: nat, hw: string)
    requires Consistent(t) && Holds(t, r, hw)
    ensures Holds(Next(t, op), r, hw) <==> !Loses(t, hw, op)
  {
    var i :| 0 <= i < |t.rows| && IsRowOf(t.rows[i], r, hw);
    match op {
      case Put(row, referenced) => PutKeepsRow(t, i, r, hw, row, referenced);
      case Remove(d) => RemoveKeepsRow(t, i, r, hw, d);
      case Touch(d, at) => assert IsRowOf(Next(t, op).rows[i], r, hw);
    }
  }

  ghost predicate HoldsThroughout(t: Table, ops: seq<Op>, r: nat, hw: string) {
    Holds(t, r, hw) && (ops != [] ==>
      HoldsThroughout(t, ops[..|ops| - 1], r, hw) && Holds(Run(t, ops), r, hw))
  }

  predicate NeverLoses(t: Table, ops: seq<Op>, hw: string) {
    ops != [] ==>
      NeverLoses(t, ops[..|ops| - 1], hw) && !Loses(Run(t, ops[..|ops| - 1]), hw, ops[|ops| - 1])
  }

  /**
   A handset keeps its row, through any number of device ids, exactly as long as no call in the
   run is one of the two that take it away.
   */
  lemma {:induction false} HandsetKeepsItsRow(t: Table, ops: seq<Op>, r: nat, hw: string)
    requires Consistent(t) && Holds(t, r, hw)
    ensures HoldsThroughout(t, ops, r, hw) <==> NeverLoses(t, ops, hw)
  {
    if ops != [] {
      var before := ops[..|ops| - 1];
      HandsetKeepsItsRow(t, before, r, hw);
      RunKeepsConsistent(t, before);
      if HoldsThroughout(t, before, r, hw) {
        assert Holds(Run(t, before), r, hw);
        NextKeepsRow(Run(t, before), ops[|ops| - 1], r, hw);
      }
    }
  }

  /** One handset, however often it is wiped and says hello again, adds at most one row. */
  lemma {:induction false} OneHandsetAddsOneRow(t: Table, ops: seq<Op>, hw: string)
    requires forall op | op in ops :: op.Put? && op.row.hardwareId == Some(hw)
    ensures var t' := Run(t, ops);
      && |t'.rows| <= |t.rows| + 1
      && (|t'.rows| > |t.rows| ==> FindHardware(t'.rows, hw) < |t'.rows|)
  {
    if ops != [] {
      var before, last := ops[..|ops| - 1], ops[|ops| - 1];
      assert last in ops;
      OneHandsetAddsOneRow(t, before, hw);
      var m, t' := Run(t, before), Run(t, ops);
      UpsertIsLocal(m, last.row, last.referenced);
      var known := FindHardware(m.rows, hw);
      var i := if known < |m.rows| then known else FindDevice(m.rows, last.row.deviceId);
      assert t'.rows[i].hardwareId == Some(hw);
    }
  }

  /**
   Which flag a row has after an upsert: the caller's on the row named by hardware id and on a new
   one, otherwise the row's own, whatever the caller says.
   */
  lemma PairedFollowsHardware(t: Table, d: Row, referenced: set<Uuid>)
    ensures var (t', r) := Upsert(t, d, referenced);
      && (forall i | 0 <= i < |t.rows| && i < |t'.rows| ::
            t'.rows[i].paired ==
              if r.Ok? && d.hardwareId.Some? && FindHardware(t.rows, d.hardwareId.value) == i
              then d.paired else t.rows[i].paired)
      && (|t'.rows| > |t.rows| ==> t'.rows[|t.rows|].paired == d.paired)
  {
  }

  /**
   A hello writes `paired: false`. It clears the flag of a paired row exactly when it succeeds
   and names that row by hardware id; a hello that only repeats the device id leaves it.
   */
  lemma HelloUnpairsByHardwareOnly(t: Table, d: Row, referenced: set<Uuid>, i: nat)
    requires i < |t.rows| && t.rows[i].paired && !d.paired
    ensures var (t', r) := Upsert(t, d, referenced);
      |t'.rows| >= |t.rows| &&
      (!t'.rows[i].paired <==> r.Ok? && d.hardwareId.Some? && FindHardware(t.rows, d.hardwareId.value) == i)
  {
  }
}
