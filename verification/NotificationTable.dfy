/**
 The `notifications` table, keyed by device and per-device notification id: its SQL, and what
 its contents say about the calls that made them.
 */
module NotificationTable {
  import opened Wrappers
  import opened Protocol

  const MARK_ALL_LIMIT := 100000
  const STATS_LIMIT := 10000

  datatype Row = Row(
    id: string, deviceId: Uuid, packageName: string, appName: Option<string>, title: string,
    content: string, postedAt: int, isSensitive: bool, category: Option<string>, read: bool)
  {
    function Key(): (Uuid, string) {
      (deviceId, id)
    }
  }

  type Key = (Uuid, string)

  // ---------------------------------------------------------------------------
  // Statements and their positional parameters
  // ---------------------------------------------------------------------------

  datatype Value = Id(d: Uuid) | Str(s: string) | Num(n: int)

  /** One conjunct of a WHERE clause; `?k` is parameter number `k`, from 1. */
  datatype Cond = DeviceIs(k: nat) | ReadIsZero | PackageIs(k: nat)

  /** SELECT … WHERE conds ORDER BY posted_at DESC LIMIT ?limit */
  datatype Select = Select(conds: seq<Cond>, limit: nat)

  datatype DbError = BadParameter | ForeignKeyViolation

  predicate Bound(c: Cond, binds: seq<Value>) {
    match c
    case DeviceIs(k) => 1 <= k <= |binds| && binds[k - 1].Id?
    case PackageIs(k) => 1 <= k <= |binds| && binds[k - 1].Str?
    case ReadIsZero => true
  }

  predicate WellBound(q: Select, binds: seq<Value>) {
    && (forall c | c in q.conds :: Bound(c, binds))
    && q.limit == |binds| > 0 && binds[q.limit - 1].Num?
  }

  predicate Satisfies(row: Row, c: Cond, binds: seq<Value>)
    requires Bound(c, binds)
  {
    match c
    case DeviceIs(k) => row.deviceId == binds[k - 1].d
    case PackageIs(k) => row.packageName == binds[k - 1].s
    case ReadIsZero => !row.read
  }

  predicate SatisfiesAll(row: Row, conds: seq<Cond>, binds: seq<Value>)
    requires forall c | c in conds :: Bound(c, binds)
  {
    forall i | 0 <= i < |conds| :: Satisfies(row, conds[i], binds)
  }

  function Scan(rows: seq<Row>, q: Select, binds: seq<Value>): seq<Row>
    requires WellBound(q, binds)
  {
    if rows == [] then []
    else
      (if SatisfiesAll(rows[0], q.conds, binds) then [rows[0]] else [])
      + Scan(rows[1..], q, binds)
  }

  function Inserted<T>(x: T, s: seq<T>, key: T -> int): seq<T> {
    if s == [] || key(x) >= key(s[0]) then [x] + s else [s[0]] + Inserted(x, s[1..], key)
  }

  /** ORDER BY key DESC; rows with equal keys stay in table order. */
  function OrderedDesc<T>(s: seq<T>, key: T -> int): seq<T> {
    if s == [] then [] else Inserted(s[0], OrderedDesc(s[1..], key), key)
  }

  /** LIMIT: a negative one is no limit. */
  function Limited<T>(s: seq<T>, limit: int): seq<T> {
    if 0 <= limit < |s| then s[..limit] else s
  }

  function Execute(rows: seq<Row>, q: Select, binds: seq<Value>): Result<seq<Row>, DbError> {
    if !WellBound(q, binds) then Err(BadParameter)
    else Ok(Limited(OrderedDesc(Scan(rows, q, binds), (r: Row) => r.postedAt), binds[q.limit - 1].n))
  }

  // ---------------------------------------------------------------------------
  // What a listing means
  // ---------------------------------------------------------------------------

  datatype Filter = Filter(device: Option<Uuid>, onlyUnread: bool, package: Option<string>) {
    predicate Admits(row: Row) {
      && (device.Some? ==> row.deviceId == device.value)
      && (onlyUnread ==> !row.read)
      && (package.Some? ==> row.packageName == package.value)
    }
  }

  function Matching(rows: seq<Row>, f: Filter): (m: seq<Row>)
    ensures |m| <= |rows|
    ensures forall row :: row in m <==> row in rows && f.Admits(row)
  {
    if rows == [] then []
    else
      assert rows == [rows[0]] + rows[1..];
      (if f.Admits(rows[0]) then [rows[0]] else []) + Matching(rows[1..], f)
  }

  ghost predicate Descending<T>(s: seq<T>, key: T -> int) {
    forall i, j | 0 <= i < j < |s| :: key(s[i]) >= key(s[j])
  }

  ghost predicate NewestFirst(s: seq<Row>) {
    forall i, j | 0 <= i < j < |s| :: s[i].postedAt >= s[j].postedAt
  }

  /** `out` is a newest-first choice of the `limit` newest members of `all`. */
  ghost predicate Newest(all: seq<Row>, limit: int, out: seq<Row>) {
    && NewestFirst(out)
    && |out| == (if 0 <= limit < |all| then limit else |all|)
    && multiset(out) <= multiset(all)
    && forall kept, dropped | kept in out && dropped in multiset(all) - multiset(out) ::
         kept.postedAt >= dropped.postedAt
  }

  lemma {:induction false} InsertedMembers<T>(x: T, s: seq<T>, key: T -> int)
    ensures multiset(Inserted(x, s, key)) == multiset(s) + multiset{x}
  {
    if s == [] || key(x) >= key(s[0]) {
    } else {
      InsertedMembers(x, s[1..], key);
      assert s == [s[0]] + s[1..];
    }
  }

  lemma {:induction false} InsertedDescends<T>(x: T, s: seq<T>, key: T -> int)
    requires Descending(s, key)
    ensures Descending(Inserted(x, s, key), key)
  {
    if s == [] || key(x) >= key(s[0]) {
    } else {
      InsertedDescends(x, s[1..], key);
      InsertedMembers(x, s[1..], key);
      var rest := Inserted(x, s[1..], key);
      forall j | 0 <= j < |rest|
        ensures key(s[0]) >= key(rest[j])
      {
        assert rest[j] in multiset(rest);
        assert rest[j] == x || rest[j] in s[1..];
      }
      DescendingCons(s[0], rest, key);
    }
  }

  lemma DescendingCons<T>(x: T, s: seq<T>, key: T -> int)
    requires Descending(s, key) && forall j | 0 <= j < |s| :: key(x) >= key(s[j])
    ensures Descending([x] + s, key)
  {
  }

  lemma {:induction false} OrderedKeeps<T>(s: seq<T>, key: T -> int)
    ensures Descending(OrderedDesc(s, key), key)
    ensures multiset(OrderedDesc(s, key)) == multiset(s)
    ensures |OrderedDesc(s, key)| == |s|
  {
    if s != [] {
      OrderedKeeps(s[1..], key);
      InsertedMembers(s[0], OrderedDesc(s[1..], key), key);
      InsertedDescends(s[0], OrderedDesc(s[1..], key), key);
      assert s == [s[0]] + s[1..];
    }
    assert |multiset(OrderedDesc(s, key))| == |multiset(s)|;
  }

  lemma KeptAreNewer(sorted: seq<Row>, n: nat, kept: Row, dropped: Row)
    requires n <= |sorted| && NewestFirst(sorted) && kept in sorted[..n] && dropped in sorted[n..]
    ensures kept.postedAt >= dropped.postedAt
  {
    var i :| 0 <= i < n && sorted[i] == kept;
    var j :| n <= j < |sorted| && sorted[j] == dropped;
  }

  lemma PrefixIsNewest(all: seq<Row>, sorted: seq<Row>, n: nat)
    requires n <= |sorted| == |all| && multiset(sorted) == multiset(all) && NewestFirst(sorted)
    ensures Newest(all, n, sorted[..n])
  {
    var out, rest := sorted[..n], sorted[n..];
    assert sorted == out + rest;
    assert multiset(all) - multiset(out) == multiset(rest);
    forall kept: Row, dropped: Row | kept in out && dropped in multiset(rest)
      ensures kept.postedAt >= dropped.postedAt
    {
      KeptAreNewer(sorted, n, kept, dropped);
    }
  }

  lemma LimitedIsNewest(all: seq<Row>, limit: int)
    ensures Newest(all, limit, Limited(OrderedDesc(all, (r: Row) => r.postedAt), limit))
  {
    var key := (r: Row) => r.postedAt;
    var sorted := OrderedDesc(all, key);
    OrderedKeeps(all, key);
    assert NewestFirst(sorted) by {
      forall i, j | 0 <= i < j < |sorted|
        ensures sorted[i].postedAt >= sorted[j].postedAt
      {
        assert key(sorted[i]) >= key(sorted[j]);
      }
    }
    var out := Limited(sorted, limit);
    PrefixIsNewest(all, sorted, |out|);
    assert sorted[..|out|] == out;
  }

  ghost predicate SelectsFor(q: Select, binds: seq<Value>, f: Filter) {
    WellBound(q, binds) &&
    forall row :: f.Admits(row) <==> SatisfiesAll(row, q.conds, binds)
  }

  /** Reads a WHERE clause of at most three conjuncts off, one by one. */
  lemma SatisfiesEach(row: Row, conds: seq<Cond>, binds: seq<Value>)
    requires |conds| <= 3 && forall c | c in conds :: Bound(c, binds)
    ensures SatisfiesAll(row, conds, binds) <==>
      && (|conds| > 0 ==> Satisfies(row, conds[0], binds))
      && (|conds| > 1 ==> Satisfies(row, conds[1], binds))
      && (|conds| > 2 ==> Satisfies(row, conds[2], binds))
  {
  }

  lemma {:induction false} ScanIsMatching(rows: seq<Row>, q: Select, binds: seq<Value>, f: Filter)
    requires SelectsFor(q, binds, f)
    ensures Scan(rows, q, binds) == Matching(rows, f)
  {
    if rows != [] {
      ScanIsMatching(rows[1..], q, binds, f);
      assert f.Admits(rows[0]) <==> SatisfiesAll(rows[0], q.conds, binds);
    }
  }

  // ---------------------------------------------------------------------------
  // Updates
  // ---------------------------------------------------------------------------

  function Without(rows: seq<Row>, k: Key): (r: seq<Row>)
    ensures forall row :: row in r <==> row in rows && row.Key() != k
  {
    if rows == [] then []
    else
      assert rows == [rows[0]] + rows[1..];
      (if rows[0].Key() == k then [] else [rows[0]]) + Without(rows[1..], k)
  }

  /** INSERT OR REPLACE: the old row under the key goes, read flag and all. */
  function Replaced(rows: seq<Row>, row: Row): seq<Row> {
    Without(rows, row.Key()) + [row]
  }

  function Marked(rows: seq<Row>, k: Key): (r: seq<Row>)
    ensures |r| == |rows|
    ensures forall i | 0 <= i < |r| :: r[i] == if rows[i].Key() == k then rows[i].(read := true) else rows[i]
  {
    seq(|rows|, i requires 0 <= i < |rows| => if rows[i].Key() == k then rows[i].(read := true) else rows[i])
  }

  function Purged(rows: seq<Row>, d: Uuid): (r: seq<Row>)
    ensures forall row :: row in r <==> row in rows && row.deviceId != d
  {
    if rows == [] then []
    else
      assert rows == [rows[0]] + rows[1..];
      (if rows[0].deviceId == d then [] else [rows[0]]) + Purged(rows[1..], d)
  }

  ghost predicate KeysDiffer(rows: seq<Row>) {
    forall i, j | 0 <= i < j < |rows| :: rows[i].Key() != rows[j].Key()
  }

  // ---------------------------------------------------------------------------
  // Grouped counts
  // ---------------------------------------------------------------------------

  datatype Group = Group(package: string, count: nat)

  function Bumped(groups: seq<Group>, p: string): seq<Group> {
    if groups == [] then [Group(p, 1)]
    else if groups[0].package == p then [Group(p, groups[0].count + 1)] + groups[1..]
    else [groups[0]] + Bumped(groups[1..], p)
  }

  /** GROUP BY package_name with COUNT(*). */
  function Grouped(rows: seq<Row>): seq<Group> {
    if rows == [] then [] else Bumped(Grouped(rows[..|rows| - 1]), rows[|rows| - 1].packageName)
  }

  function Total(groups: seq<Group>): nat {
    if groups == [] then 0 else groups[0].count + Total(groups[1..])
  }

  // ---------------------------------------------------------------------------
  // The table
  // ---------------------------------------------------------------------------

  class Notifications {
    var rows: seq<Row>

    constructor ()
      ensures rows == []
    {
      rows := [];
    }

    /** `known`: a device row exists, as the foreign key demands. */
    method InsertNotification(row: Row, known: bool) returns (r: Result<(), DbError>)
      modifies this
      ensures r == (if known then Ok(()) else Err(ForeignKeyViolation))
      ensures rows == if known then Replaced(old(rows), row) else old(rows)
    {
      if !known {
        return Err(ForeignKeyViolation);
      }
      rows := Without(rows, row.Key()) + [row];
      r := Ok(());
    }

    method MarkNotificationRead(d: Uuid, id: string)
      modifies this
      ensures rows == Marked(old(rows), (d, id))
    {
      rows := Marked(rows, (d, id));
    }

    /** UPDATE … RETURNING id. */
    method DismissNotification(d: Uuid, id: string) returns (r: Option<string>)
      modifies this
      ensures rows == Marked(old(rows), (d, id))
      ensures r == if exists row | row in old(rows) :: row.Key() == (d, id) then Some(id) else None
    {
      r := None;
      var i := 0;
      while i < |rows|
        invariant i <= |rows|
        invariant r == if exists k | 0 <= k < i :: rows[k].Key() == (d, id) then Some(id) else None
      {
        if rows[i].Key() == (d, id) {
          r := Some(rows[i].id);
        }
        i := i + 1;
      }
      rows := Marked(rows, (d, id));
    }

    /** ON DELETE CASCADE when the device row goes. */
    method CascadeDelete(d: Uuid)
      modifies this
      ensures rows == Purged(old(rows), d)
    {
      rows := Purged(rows, d);
    }

    /** The statement for each of the eight filter combinations; its parameters are bound apart. */
    method ListNotifications(device: Option<Uuid>, limit: int, onlyUnread: bool, package: Option<string>)
      returns (r: Result<seq<Row>, DbError>)
      ensures r.Ok?
      ensures Newest(Matching(rows, Filter(device, onlyUnread, package)), limit, r.value)
    {
      var q :=
        if onlyUnread && device.Some? && package.Some? then Select([DeviceIs(1), ReadIsZero, PackageIs(2)], 3)
        else if onlyUnread && device.Some? then Select([DeviceIs(1), ReadIsZero], 2)
        else if onlyUnread && package.Some? then Select([ReadIsZero, PackageIs(1)], 2)
        else if device.Some? && package.Some? then Select([DeviceIs(1), PackageIs(2)], 3)
        else if device.Some? then Select([DeviceIs(1)], 2)
        else if package.Some? then Select([PackageIs(1)], 2)
        else if onlyUnread then Select([ReadIsZero], 1)
        else Select([], 1);
      var binds := match (onlyUnread, device, package)
        case (true, Some(d), Some(p)) => [Id(d), Str(p), Num(limit)]
        case (true, Some(d), None) => [Id(d), Num(limit)]
        case (true, None, Some(p)) => [Str(p), Num(limit)]
        case (false, Some(d), Some(p)) => [Id(d), Str(p), Num(limit)]
        case (false, Some(d), None) => [Id(d), Num(limit)]
        case (false, None, Some(p)) => [Str(p), Num(limit)]
        case (true, None, None) => [Num(limit)]
        case (false, None, None) => [Num(limit)];
      r := Execute(rows, q, binds);
      ghost var f := Filter(device, onlyUnread, package);
      forall row: Row
        ensures f.Admits(row) <==> SatisfiesAll(row, q.conds, binds)
      {
        SatisfiesEach(row, q.conds, binds);
      }
      ScanIsMatching(rows, q, binds, f);
      LimitedIsNewest(Matching(rows, f), limit);
    }

    /** A count has no LIMIT; -1 stands for none. */
    method CountUnread(device: Option<Uuid>) returns (n: nat)
      ensures n == |Matching(rows, Filter(device, true, None))|
    {
      var binds := if device.Some? then [Id(device.value), Num(-1)] else [Num(-1)];
      var q := if device.Some? then Select([ReadIsZero, DeviceIs(1)], 2) else Select([ReadIsZero], 1);
      ghost var f := Filter(device, true, None);
      forall row: Row
        ensures f.Admits(row) <==> SatisfiesAll(row, q.conds, binds)
      {
        SatisfiesEach(row, q.conds, binds);
      }
      ScanIsMatching(rows, q, binds, f);
      n := |Scan(rows, q, binds)|;
    }

    /** One group per package in use, largest first, each with its own number of rows. */
    method CountByPackage(device: Option<Uuid>) returns (groups: seq<Group>)
      ensures var all := Matching(rows, Filter(device, false, None));
        && Descending(groups, (g: Group) => g.count)
        && (forall i, j | 0 <= i < j < |groups| :: groups[i].package != groups[j].package)
        && (forall g | g in groups :: g.count == |Matching(all, Filter(None, false, Some(g.package)))| > 0)
        && (forall row | row in all :: exists g | g in groups :: g.package == row.packageName)
        && Total(groups) == |all|
    {
      var q, binds := Select(if device.Some? then [DeviceIs(1)] else [], 1), [Num(-1)];
      if device.Some? {
        q, binds := q.(limit := 2), [Id(device.value), Num(-1)];
      }
      ghost var f := Filter(device, false, None);
      forall row: Row
        ensures f.Admits(row) <==> SatisfiesAll(row, q.conds, binds)
      {
        SatisfiesEach(row, q.conds, binds);
      }
      ScanIsMatching(rows, q, binds, f);
      var all := Scan(rows, q, binds);
      groups := OrderedDesc(Grouped(all), (g: Group) => g.count);
      GroupsCount(all);
      OrderedGroups(Grouped(all));
      forall g | g in groups
        ensures g in Grouped(all)
      {
        assert g in multiset(groups);
      }
      forall row | row in all
        ensures exists g | g in groups :: g.package == row.packageName
      {
        var g :| g in Grouped(all) && g.package == row.packageName;
        assert g in multiset(groups);
      }
    }

    /** The dashboard's totals: the listing is capped, the counts are not. */
    method Stats(device: Option<Uuid>) returns (total: nat, unread: nat, groups: seq<Group>)
      ensures var all := Matching(rows, Filter(device, false, None));
        && (total == Total(groups) <==> |all| <= STATS_LIMIT)
        && total <= Total(groups) == |all|
        && unread == |Matching(all, Filter(None, true, None))|
    {
      var listed := ListNotifications(device, STATS_LIMIT, false, None);
      total := |listed.value|;
      unread := CountUnread(device);
      groups := CountByPackage(device);
      MatchingTwice(rows, Filter(device, false, None), Filter(None, true, None), Filter(device, true, None));
    }

    /**
     Marks the newest unread rows of one device, or of all. A package in the query is ignored,
     and rows past the limit stay unread.
     */
    method MarkAllRead(device: Option<Uuid>, package: Option<string>)
      requires KeysDiffer(rows)
      modifies this
      ensures NewestMarked(old(rows), rows, Filter(device, true, None), MARK_ALL_LIMIT)
    {
      var f := Filter(device, true, None);
      var listed := ListNotifications(device, MARK_ALL_LIMIT, true, None);
      var todo := listed.value;
      ProgressStart(rows, todo, f);
      MarkEach(todo, f);
      MarkAllMarksNewest(old(rows), rows, todo, f);
    }

    method MarkEach(todo: seq<Row>, ghost f: Filter)
      requires f.onlyUnread && Progress(rows, rows, [], todo, f)
      modifies this
      ensures Progress(old(rows), rows, todo, [], f)
    {
      ghost var before := rows;
      var k := 0;
      while k < |todo|
        invariant k <= |todo| && Progress(before, rows, todo[..k], todo[k..], f)
      {
        ProgressStep(before, rows, todo[..k], todo[k..], f);
        assert todo[..k] + [todo[k]] == todo[..k + 1] && todo[k..][1..] == todo[k + 1..];
        MarkNotificationRead(todo[k].deviceId, todo[k].id);
        k := k + 1;
      }
      assert todo[..k] == todo && todo[k..] == [];
    }
  }

  // ---------------------------------------------------------------------------
  // Proofs about counts
  // ---------------------------------------------------------------------------

  lemma {:induction false} MatchingTwice(rows: seq<Row>, f: Filter, g: Filter, both: Filter)
    requires forall row :: both.Admits(row) <==> f.Admits(row) && g.Admits(row)
    ensures Matching(Matching(rows, f), g) == Matching(rows, both)
  {
    if rows != [] {
      MatchingTwice(rows[1..], f, g, both);
      var rest := Matching(rows[1..], f);
      if f.Admits(rows[0]) {
        assert Matching(rows, f) == [rows[0]] + rest && ([rows[0]] + rest)[1..] == rest;
      } else {
        assert Matching(rows, f) == rest;
      }
    }
  }

  ghost predicate PackagesDiffer(groups: seq<Group>) {
    forall i, j | 0 <= i < j < |groups| :: groups[i].package != groups[j].package
  }

  predicate Absent(groups: seq<Group>, p: string) {
    forall h | h in groups :: h.package != p
  }

  /** The groups of other packages stay as they were. */
  lemma {:induction false} BumpedOthers(groups: seq<Group>, p: string, g: Group)
    requires g.package != p
    ensures g in Bumped(groups, p) <==> g in groups
  {
    if groups != [] && groups[0].package != p {
      BumpedOthers(groups[1..], p, g);
      assert groups == [groups[0]] + groups[1..];
    }
  }

  /** The group of `p` gained one. */
  lemma {:induction false} BumpedGains(groups: seq<Group>, p: string, g: Group)
    requires PackagesDiffer(groups) && g in Bumped(groups, p) && g.package == p
    ensures (g.count == 1 && Absent(groups, p)) || (g.count > 0 && Group(p, g.count - 1) in groups)
  {
    var b := Bumped(groups, p);
    if groups == [] {
    } else if groups[0].package == p {
      assert forall h | h in groups[1..] :: h.package != p;
      assert Group(p, groups[0].count) == groups[0];
    } else {
      BumpedGains(groups[1..], p, g);
    }
  }

  lemma {:induction false} BumpedHas(groups: seq<Group>, p: string)
    ensures !Absent(Bumped(groups, p), p)
  {
    var b := Bumped(groups, p);
    if groups == [] || groups[0].package == p {
      assert b[0] in b;
    } else {
      BumpedHas(groups[1..], p);
      assert b[1..] == Bumped(groups[1..], p);
    }
  }

  lemma {:induction false} BumpedTotal(groups: seq<Group>, p: string)
    ensures Total(Bumped(groups, p)) == Total(groups) + 1
  {
    if groups != [] && groups[0].package != p {
      BumpedTotal(groups[1..], p);
    }
  }

  lemma {:induction false} BumpedDiffers(groups: seq<Group>, p: string)
    requires PackagesDiffer(groups)
    ensures PackagesDiffer(Bumped(groups, p))
  {
    if groups != [] && groups[0].package != p {
      BumpedDiffers(groups[1..], p);
      var rest := Bumped(groups[1..], p);
      forall j | 0 <= j < |rest|
        ensures rest[j].package != groups[0].package
      {
        if rest[j].package != p {
          BumpedOthers(groups[1..], p, rest[j]);
          assert rest[j] in groups[1..];
        }
      }
    }
  }

  lemma {:induction false} MatchingSnoc(rows: seq<Row>, row: Row, f: Filter)
    ensures Matching(rows + [row], f) == Matching(rows, f) + if f.Admits(row) then [row] else []
  {
    if rows != [] {
      MatchingSnoc(rows[1..], row, f);
      assert (rows + [row])[1..] == rows[1..] + [row];
    } else {
      assert rows + [row] == [row];
    }
  }

  function PackageCount(rows: seq<Row>, p: string): nat {
    |Matching(rows, Filter(None, false, Some(p)))|
  }

  lemma GroupIsCount(before: seq<Row>, last: Row, g: Group)
    requires PackagesDiffer(Grouped(before)) && g in Bumped(Grouped(before), last.packageName)
    requires forall h | h in Grouped(before) :: h.count == PackageCount(before, h.package) > 0
    requires forall row | row in before :: exists h | h in Grouped(before) :: h.package == row.packageName
    ensures g.count == PackageCount(before + [last], g.package) > 0
  {
    var p := last.packageName;
    MatchingSnoc(before, last, Filter(None, false, Some(g.package)));
    if g.package != p {
      BumpedOthers(Grouped(before), p, g);
    } else {
      BumpedGains(Grouped(before), p, g);
      if Absent(Grouped(before), p) {
        NoneOfPackage(before, p);
      }
    }
  }

  lemma {:induction false} GroupsCount(rows: seq<Row>)
    ensures PackagesDiffer(Grouped(rows)) && Total(Grouped(rows)) == |rows|
    ensures forall g | g in Grouped(rows) :: g.count == PackageCount(rows, g.package) > 0
    ensures forall row | row in rows :: exists g | g in Grouped(rows) :: g.package == row.packageName
  {
    if rows != [] {
      var before, last := rows[..|rows| - 1], rows[|rows| - 1];
      assert rows == before + [last];
      GroupsCount(before);
      var p := last.packageName;
      BumpedDiffers(Grouped(before), p);
      BumpedTotal(Grouped(before), p);
      BumpedHas(Grouped(before), p);
      forall g | g in Grouped(rows)
        ensures g.count == PackageCount(rows, g.package) > 0
      {
        GroupIsCount(before, last, g);
      }
      forall row | row in rows
        ensures exists g | g in Grouped(rows) :: g.package == row.packageName
      {
        if row.packageName != p {
          var g :| g in Grouped(before) && g.package == row.packageName;
          BumpedOthers(Grouped(before), p, g);
        }
      }
    }
  }

  lemma NoneOfPackage(rows: seq<Row>, p: string)
    requires forall row | row in rows :: exists g | g in Grouped(rows) :: g.package == row.packageName
    requires Absent(Grouped(rows), p)
    ensures PackageCount(rows, p) == 0
  {
    MatchesNothing(rows, Filter(None, false, Some(p)));
  }

  lemma {:induction false} MatchesNothing(rows: seq<Row>, f: Filter)
    requires forall row | row in rows :: !f.Admits(row)
    ensures Matching(rows, f) == []
  {
    if rows != [] {
      MatchesNothing(rows[1..], f);
    }
  }

  lemma {:induction false} TotalInserted(g: Group, s: seq<Group>)
    ensures Total(Inserted(g, s, (g: Group) => g.count)) == g.count + Total(s)
  {
    var key := (g: Group) => g.count;
    if s == [] || key(g) >= key(s[0]) {
      assert Inserted(g, s, key) == [g] + s;
    } else {
      TotalInserted(g, s[1..]);
      assert Inserted(g, s, key) == [s[0]] + Inserted(g, s[1..], key);
    }
  }

  lemma {:induction false} TotalOrdered(s: seq<Group>)
    ensures Total(OrderedDesc(s, (g: Group) => g.count)) == Total(s)
  {
    if s != [] {
      TotalOrdered(s[1..]);
      TotalInserted(s[0], OrderedDesc(s[1..], (g: Group) => g.count));
    }
  }

  lemma OrderedGroups(groups: seq<Group>)
    requires PackagesDiffer(groups)
    ensures var key := (g: Group) => g.count;
      && Descending(OrderedDesc(groups, key), key) && PackagesDiffer(OrderedDesc(groups, key))
      && multiset(OrderedDesc(groups, key)) == multiset(groups)
      && Total(OrderedDesc(groups, key)) == Total(groups)
  {
    var key := (g: Group) => g.count;
    var sorted := OrderedDesc(groups, key);
    OrderedKeeps(groups, key);
    TotalOrdered(groups);
    forall i, j | 0 <= i < j < |sorted|
      ensures sorted[i].package != sorted[j].package
    {
      if sorted[i].package == sorted[j].package {
        assert sorted[i] in multiset(groups) && sorted[j] in multiset(groups);
        assert sorted[i] == sorted[j];
        TwiceInSorted(sorted, i, j);
        OncePerPackage(groups, sorted[i]);
      }
    }
  }

  lemma TwiceInSorted<T>(s: seq<T>, i: nat, j: nat)
    requires i < j < |s| && s[i] == s[j]
    ensures multiset(s)[s[i]] >= 2
  {
    assert s == s[..i] + [s[i]] + s[i + 1..j] + [s[j]] + s[j + 1..];
  }

  lemma {:induction false} OncePerPackage(groups: seq<Group>, g: Group)
    requires PackagesDiffer(groups)
    ensures multiset(groups)[g] <= 1
  {
    if groups != [] {
      OncePerPackage(groups[1..], g);
      assert groups == [groups[0]] + groups[1..];
      if groups[0] == g {
        assert g !in groups[1..];
      }
    }
  }

  // ---------------------------------------------------------------------------
  // Proofs about marking
  // ---------------------------------------------------------------------------

  /**
   Up to `limit` rows the filter admits are now read, none older than one still unread; nothing
   else about any row changed, and only what exceeded the limit is left unread.
   */
  ghost predicate NewestMarked(before: seq<Row>, after: seq<Row>, f: Filter, limit: nat) {
    var unread := |Matching(before, f)|;
    && |after| == |before| && KeysDiffer(after)
    && OnlyReadSet(before, after, f) && NoneOlderMarked(before, after, f)
    && |Matching(after, f)| == (if unread > limit then unread - limit else 0)
  }

  ghost predicate OnlyReadSet(before: seq<Row>, after: seq<Row>, f: Filter)
    requires |before| == |after|
  {
    forall i | 0 <= i < |after| ::
      after[i] == before[i] || (f.Admits(before[i]) && after[i] == before[i].(read := true))
  }

  ghost predicate NoneOlderMarked(before: seq<Row>, after: seq<Row>, f: Filter)
    requires |before| == |after|
  {
    forall i, j | 0 <= i < |after| && 0 <= j < |after| ::
      after[i] != before[i] && f.Admits(after[j]) ==> after[i].postedAt >= after[j].postedAt
  }

  function MarkedIfListed(row: Row, listed: seq<Row>): Row {
    if exists x | x in listed :: x.Key() == row.Key() then row.(read := true) else row
  }

  lemma {:induction false} MatchingKeysDiffer(rows: seq<Row>, f: Filter)
    requires KeysDiffer(rows)
    ensures KeysDiffer(Matching(rows, f))
  {
    if rows != [] {
      MatchingKeysDiffer(rows[1..], f);
      var m := Matching(rows[1..], f);
      forall j | 0 <= j < |m|
        ensures m[j].Key() != rows[0].Key()
      {
        assert m[j] in rows[1..];
      }
      if f.Admits(rows[0]) {
        assert Matching(rows, f) == [rows[0]] + m;
      }
    }
  }

  lemma {:induction false} OnceEach(rows: seq<Row>, row: Row)
    requires KeysDiffer(rows)
    ensures multiset(rows)[row] <= 1
  {
    if rows != [] {
      OnceEach(rows[1..], row);
      assert rows == [rows[0]] + rows[1..];
      if rows[0] == row {
        assert row !in rows[1..];
      }
    }
  }

  lemma ListedKeysDiffer(all: seq<Row>, out: seq<Row>)
    requires KeysDiffer(all) && multiset(out) <= multiset(all)
    ensures KeysDiffer(out)
    ensures forall x | x in out :: x in all
  {
    forall x | x in out
      ensures x in all
    {
      assert x in multiset(out);
    }
    forall i, j | 0 <= i < j < |out|
      ensures out[i].Key() != out[j].Key()
    {
      if out[i].Key() == out[j].Key() {
        assert out[i] in all && out[j] in all;
        assert out[i] == out[j];
        TwiceInSorted(out, i, j);
        OnceEach(all, out[i]);
      }
    }
  }

  lemma {:induction false} MarkTouchesNothing(rows: seq<Row>, k: Key)
    requires forall row | row in rows :: row.Key() != k
    ensures Marked(rows, k) == rows
  {
  }

  lemma {:induction false} MarkTakesOne(rows: seq<Row>, row: Row, f: Filter)
    requires KeysDiffer(rows) && row in Matching(rows, f) && f.onlyUnread
    ensures |Matching(Marked(rows, row.Key()), f)| == |Matching(rows, f)| - 1
    ensures KeysDiffer(Marked(rows, row.Key()))
  {
    var marked := Marked(rows, row.Key());
    assert marked[1..] == Marked(rows[1..], row.Key());
    if rows[0] == row {
      forall x | x in rows[1..]
        ensures x.Key() != row.Key()
      {
        var j :| 1 <= j < |rows| && rows[j] == x;
      }
      MarkTouchesNothing(rows[1..], row.Key());
    } else {
      assert row in rows[1..];
      assert rows[0].Key() != row.Key();
      MarkTakesOne(rows[1..], row, f);
    }
  }

  lemma OthersStay(rows: seq<Row>, k: Key, row: Row)
    requires row in rows && row.Key() != k
    ensures row in Marked(rows, k)
  {
    var i :| 0 <= i < |rows| && rows[i] == row;
    assert Marked(rows, k)[i] == row;
  }

  /** The rows in `done` are marked, those in `rest` still wait. */
  ghost predicate Progress(before: seq<Row>, rows: seq<Row>, done: seq<Row>, rest: seq<Row>, f: Filter) {
    && |rows| == |before| && KeysDiffer(rows) && KeysDiffer(rest)
    && AllMarked(before, rows, done)
    && |Matching(rows, f)| == |Matching(before, f)| - |done|
    && forall x | x in rest :: x in Matching(rows, f)
  }

  ghost predicate AllMarked(before: seq<Row>, rows: seq<Row>, listed: seq<Row>)
    requires |rows| == |before|
  {
    forall i | 0 <= i < |rows| :: rows[i] == MarkedIfListed(before[i], listed)
  }

  lemma MarkedStep(row: Row, listed: seq<Row>, x: Row)
    ensures MarkedIfListed(row, listed + [x]) ==
      var m := MarkedIfListed(row, listed); if m.Key() == x.Key() then m.(read := true) else m
  {
    if x.Key() == row.Key() {
      assert x in listed + [x];
    } else if exists y | y in listed :: y.Key() == row.Key() {
      var y :| y in listed && y.Key() == row.Key();
      assert y in listed + [x];
    }
  }

  lemma AllMarkedStep(before: seq<Row>, rows: seq<Row>, listed: seq<Row>, x: Row)
    requires |rows| == |before| && AllMarked(before, rows, listed)
    ensures AllMarked(before, Marked(rows, x.Key()), listed + [x])
  {
    forall i | 0 <= i < |rows|
      ensures Marked(rows, x.Key())[i] == MarkedIfListed(before[i], listed + [x])
    {
      MarkedStep(before[i], listed, x);
    }
  }

  lemma RestStay(rows: seq<Row>, rest: seq<Row>, f: Filter)
    requires rest != [] && KeysDiffer(rest) && forall x | x in rest :: x in Matching(rows, f)
    ensures forall x | x in rest[1..] :: x in Matching(Marked(rows, rest[0].Key()), f)
  {
    forall x | x in rest[1..]
      ensures x in Matching(Marked(rows, rest[0].Key()), f)
    {
      var j :| 1 <= j < |rest| && rest[j] == x;
      assert rest[j] in rest && rest[0].Key() != rest[j].Key();
      OthersStay(rows, rest[0].Key(), x);
    }
  }

  lemma ProgressStep(before: seq<Row>, rows: seq<Row>, done: seq<Row>, rest: seq<Row>, f: Filter)
    requires f.onlyUnread && rest != [] && Progress(before, rows, done, rest, f)
    ensures Progress(before, Marked(rows, rest[0].Key()), done + [rest[0]], rest[1..], f)
  {
    MarkTakesOne(rows, rest[0], f);
    RestStay(rows, rest, f);
    AllMarkedStep(before, rows, done, rest[0]);
  }

  lemma ProgressStart(rows: seq<Row>, todo: seq<Row>, f: Filter)
    requires KeysDiffer(rows) && Newest(Matching(rows, f), MARK_ALL_LIMIT, todo)
    ensures Progress(rows, rows, [], todo, f)
  {
    MatchingKeysDiffer(rows, f);
    ListedKeysDiffer(Matching(rows, f), todo);
  }

  lemma ListedAreMatching(before: seq<Row>, todo: seq<Row>, f: Filter, row: Row)
    requires KeysDiffer(before) && row in before && multiset(todo) <= multiset(Matching(before, f))
    requires exists x | x in todo :: x.Key() == row.Key()
    ensures row in todo && f.Admits(row)
  {
    var x :| x in todo && x.Key() == row.Key();
    assert x in multiset(todo);
    assert x in Matching(before, f);
    var i, k :| 0 <= i < |before| && 0 <= k < |before| && before[i] == row && before[k] == x;
  }

  lemma OnlyListedChange(before: seq<Row>, after: seq<Row>, todo: seq<Row>, f: Filter, i: nat)
    requires KeysDiffer(before) && multiset(todo) <= multiset(Matching(before, f))
    requires i < |after| == |before| && after[i] == MarkedIfListed(before[i], todo)
    ensures after[i] == before[i] || (before[i] in todo && f.Admits(before[i]) && after[i] == before[i].(read := true))
  {
    if after[i] != before[i] {
      ListedAreMatching(before, todo, f, before[i]);
    }
  }

  lemma UnlistedAreOlder(all: seq<Row>, todo: seq<Row>, limit: nat, kept: Row, dropped: Row)
    requires Newest(all, limit, todo) && kept in todo && dropped in all && dropped !in todo
    ensures kept.postedAt >= dropped.postedAt
  {
    assert dropped in multiset(all) - multiset(todo);
  }

  lemma OnlyListedSet(before: seq<Row>, after: seq<Row>, todo: seq<Row>, f: Filter)
    requires KeysDiffer(before) && multiset(todo) <= multiset(Matching(before, f))
    requires |after| == |before| && AllMarked(before, after, todo)
    ensures OnlyReadSet(before, after, f)
  {
    forall i | 0 <= i < |after|
      ensures after[i] == before[i] || (f.Admits(before[i]) && after[i] == before[i].(read := true))
    {
      OnlyListedChange(before, after, todo, f, i);
    }
  }

  lemma NewestListed(before: seq<Row>, after: seq<Row>, todo: seq<Row>, f: Filter, limit: nat, i: nat, j: nat)
    requires f.onlyUnread && KeysDiffer(before) && Newest(Matching(before, f), limit, todo)
    requires |after| == |before| && AllMarked(before, after, todo)
    requires i < |after| && j < |after| && after[i] != before[i] && f.Admits(after[j])
    ensures after[i].postedAt >= after[j].postedAt
  {
    OnlyListedChange(before, after, todo, f, i);
    assert after[j] == MarkedIfListed(before[j], todo);
    assert before[j] !in todo;
    UnlistedAreOlder(Matching(before, f), todo, limit, before[i], before[j]);
  }

  lemma MarkAllMarksNewest(before: seq<Row>, after: seq<Row>, todo: seq<Row>, f: Filter)
    requires f.onlyUnread && KeysDiffer(before)
    requires Newest(Matching(before, f), MARK_ALL_LIMIT, todo)
    requires Progress(before, after, todo, [], f)
    ensures NewestMarked(before, after, f, MARK_ALL_LIMIT)
  {
    OnlyListedSet(before, after, todo, f);
    forall i, j | 0 <= i < |after| && 0 <= j < |after| && after[i] != before[i] && f.Admits(after[j])
      ensures after[i].postedAt >= after[j].postedAt
    {
      NewestListed(before, after, todo, f, MARK_ALL_LIMIT, i, j);
    }
  }

  // ---------------------------------------------------------------------------
  // Contents and history
  // ---------------------------------------------------------------------------

  datatype Op =
    | Insert(row: Row, known: bool)
    | Mark(d: Uuid, id: string)
    | Dismiss(d: Uuid, id: string)
    | RemoveDevice(d: Uuid)
  {
    predicate Writes(k: Key) {
      Insert? && known && row.Key() == k
    }

    predicate Erases(k: Key) {
      RemoveDevice? && d == k.0
    }

    predicate Reads(k: Key) {
      (Mark? || Dismiss?) && (d, id) == k
    }
  }

  function Next(rows: seq<Row>, op: Op): seq<Row> {
    match op
    case Insert(row, known) => if known then Replaced(rows, row) else rows
    case Mark(d, id) => Marked(rows, (d, id))
    case Dismiss(d, id) => Marked(rows, (d, id))
    case RemoveDevice(d) => Purged(rows, d)
  }

  function Run(ops: seq<Op>): seq<Row> {
    if ops == [] then [] else Next(Run(ops[..|ops| - 1]), ops[|ops| - 1])
  }

  /** Call `i` is the last accepted insert of the key, and the device was not removed since. */
  ghost predicate LastInsert(ops: seq<Op>, k: Key, i: nat) {
    i < |ops| && ops[i].Writes(k) && forall j | i < j < |ops| :: !ops[j].Writes(k) && !ops[j].Erases(k)
  }

  ghost predicate ReadSince(ops: seq<Op>, k: Key, i: nat) {
    exists j | i < j < |ops| :: ops[j].Reads(k)
  }

  /** The row as its last insert wrote it, read if it came read or was marked or dismissed since. */
  ghost predicate Explains(ops: seq<Op>, i: nat, row: Row) {
    LastInsert(ops, row.Key(), i) &&
    row == ops[i].row.(read := ops[i].row.read || ReadSince(ops, row.Key(), i))
  }

  lemma LastInsertSnoc(ops: seq<Op>, op: Op, k: Key, i: nat)
    requires i < |ops|
    ensures LastInsert(ops + [op], k, i) <==> LastInsert(ops, k, i) && !op.Writes(k) && !op.Erases(k)
    ensures ReadSince(ops + [op], k, i) <==> ReadSince(ops, k, i) || op.Reads(k)
  {
    var all := ops + [op];
    assert all[|ops|] == op;
    assert forall j | 0 <= j < |ops| :: all[j] == ops[j];
    if LastInsert(all, k, i) {
      assert !all[|ops|].Writes(k) && !all[|ops|].Erases(k);
      forall j | i < j < |ops|
        ensures !ops[j].Writes(k) && !ops[j].Erases(k)
      {
        assert !all[j].Writes(k);
      }
    }
    if ReadSince(ops, k, i) {
      var j :| i < j < |ops| && ops[j].Reads(k);
      assert all[j].Reads(k);
    }
    if op.Reads(k) {
      assert all[|ops|].Reads(k);
    }
  }

  /** Every row has its history. */
  lemma {:induction false} RowsAreExplained(ops: seq<Op>, row: Row) returns (i: nat)
    requires row in Run(ops)
    ensures Explains(ops, i, row)
  {
    var before, op := ops[..|ops| - 1], ops[|ops| - 1];
    assert ops == before + [op];
    var rows := Run(before);
    if op.Writes(row.Key()) {
      i := |before|;
    } else {
      var was := row;
      if op.Mark? || op.Dismiss? {
        var n :| 0 <= n < |rows| && Marked(rows, (op.d, op.id))[n] == row;
        was := rows[n];
      }
      i := RowsAreExplained(before, was);
      LastInsertSnoc(before, op, row.Key(), i);
    }
  }

  /** Every history has its row. */
  lemma {:induction false} InsertsHaveRows(ops: seq<Op>, k: Key, i: nat)
    requires LastInsert(ops, k, i)
    ensures exists row | row in Run(ops) :: row.Key() == k
  {
    var before, op := ops[..|ops| - 1], ops[|ops| - 1];
    assert ops == before + [op];
    if i == |before| {
      assert op.row in Run(ops);
    } else {
      LastInsertSnoc(before, op, k, i);
      InsertsHaveRows(before, k, i);
      var row :| row in Run(before) && row.Key() == k;
      NextKeepsKey(Run(before), op, row);
    }
  }

  lemma NextKeepsKey(rows: seq<Row>, op: Op, row: Row)
    requires row in rows && !op.Writes(row.Key()) && !op.Erases(row.Key())
    ensures exists r | r in Next(rows, op) :: r.Key() == row.Key()
  {
    var n :| 0 <= n < |rows| && rows[n] == row;
    if op.Mark? || op.Dismiss? {
      assert Next(rows, op)[n] in Next(rows, op);
      assert Next(rows, op)[n].Key() == row.Key();
    } else {
      assert row in Next(rows, op);
    }
  }

  /**
   The table is its history: a row under the key exists exactly when some insert of it is still
   standing, and then it is what that insert wrote, read exactly when it came read or a mark or
   dismissal followed.
   */
  lemma TableIsHistory(ops: seq<Op>, k: Key)
    ensures (exists row | row in Run(ops) :: row.Key() == k) <==> (exists i: nat :: LastInsert(ops, k, i))
    ensures forall row, i: nat | row in Run(ops) && row.Key() == k && LastInsert(ops, k, i) :: Explains(ops, i, row)
  {
    forall row | row in Run(ops) && row.Key() == k
      ensures exists i: nat :: LastInsert(ops, k, i)
    {
      var i := RowsAreExplained(ops, row);
    }
    forall i: nat | LastInsert(ops, k, i)
      ensures exists row | row in Run(ops) :: row.Key() == k
    {
      InsertsHaveRows(ops, k, i);
    }
    forall row, i: nat | row in Run(ops) && row.Key() == k && LastInsert(ops, k, i)
      ensures Explains(ops, i, row)
    {
      var e := RowsAreExplained(ops, row);
      assert e == i by {
        assert ops[e].Writes(k) && ops[i].Writes(k);
      }
    }
  }

  lemma {:induction false} WithoutKeysDiffer(rows: seq<Row>, k: Key)
    requires KeysDiffer(rows)
    ensures KeysDiffer(Without(rows, k))
  {
    if rows != [] {
      WithoutKeysDiffer(rows[1..], k);
      var rest := Without(rows[1..], k);
      forall j | 0 <= j < |rest|
        ensures rest[j].Key() != rows[0].Key()
      {
        assert rest[j] in rows[1..];
      }
      if rows[0].Key() != k {
        assert Without(rows, k) == [rows[0]] + rest;
      }
    }
  }

  lemma {:induction false} PurgedKeysDiffer(rows: seq<Row>, d: Uuid)
    requires KeysDiffer(rows)
    ensures KeysDiffer(Purged(rows, d))
  {
    if rows != [] {
      PurgedKeysDiffer(rows[1..], d);
      var rest := Purged(rows[1..], d);
      forall j | 0 <= j < |rest|
        ensures rest[j].Key() != rows[0].Key()
      {
        assert rest[j] in rows[1..];
      }
      if rows[0].deviceId != d {
        assert Purged(rows, d) == [rows[0]] + rest;
      }
    }
  }

  /** At most one row per device and notification id, after any run. */
  lemma {:induction false} RunKeysDiffer(ops: seq<Op>)
    ensures KeysDiffer(Run(ops))
  {
    if ops != [] {
      var before, op := ops[..|ops| - 1], ops[|ops| - 1];
      RunKeysDiffer(before);
      var rows := Run(before);
      match op {
        case Insert(row, known) =>
          if known {
            WithoutKeysDiffer(rows, row.Key());
            var rest := Without(rows, row.Key());
            assert forall j | 0 <= j < |rest| :: rest[j] in rest;
          }
        case RemoveDevice(d) => PurgedKeysDiffer(rows, d);
        case Mark(d, id) =>
        case Dismiss(d, id) =>
      }
    }
  }
}
