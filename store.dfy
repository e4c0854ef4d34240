/** Row selection and ordering as the backend's query builder performs them:
    `.eq(field, value)` keeps the rows a predicate holds of, in table order, and
    `.order(column, { ascending: false })` sorts them by a key, largest first. */
module Query {

  function Filter<T>(s: seq<T>, p: T -> bool): (r: seq<T>)
    ensures |r| <= |s|
    ensures forall i :: 0 <= i < |r| ==> p(r[i])
    ensures forall i :: 0 <= i < |r| ==> r[i] in s
    ensures forall i :: 0 <= i < |s| && p(s[i]) ==> s[i] in r
  {
    if s == [] then [] else (if p(s[0]) then [s[0]] else []) + Filter(s[1..], p)
  }

  lemma {:induction false} FilterAppend<T>(s: seq<T>, t: seq<T>, p: T -> bool)
    ensures Filter(s + t, p) == Filter(s, p) + Filter(t, p)
  {
    if s == [] {
      assert s + t == t;
    } else {
      assert (s + t)[1..] == s[1..] + t;
      FilterAppend(s[1..], t, p);
    }
  }

  lemma {:induction false} FilterMultiset<T>(s: seq<T>, p: T -> bool)
    ensures multiset(Filter(s, p)) <= multiset(s)
    ensures forall x :: p(x) ==> multiset(Filter(s, p))[x] == multiset(s)[x]
  {
    if s != [] {
      FilterMultiset(s[1..], p);
      var head := if p(s[0]) then [s[0]] else [];
      assert Filter(s, p) == head + Filter(s[1..], p);
      assert multiset(Filter(s, p)) == multiset(head) + multiset(Filter(s[1..], p));
      assert s == [s[0]] + s[1..];
      assert multiset(s) == multiset{s[0]} + multiset(s[1..]);
    }
  }

  ghost predicate SortedDesc<T>(s: seq<T>, key: T -> int) {
    forall i, j :: 0 <= i < j < |s| ==> key(s[i]) >= key(s[j])
  }

  function InsertDesc<T>(x: T, s: seq<T>, key: T -> int): (r: seq<T>)
    ensures multiset(r) == multiset(s) + multiset{x}
    ensures |r| == |s| + 1
  {
    if s == [] || key(x) >= key(s[0]) then [x] + s
    else
      assert s == [s[0]] + s[1..];
      [s[0]] + InsertDesc(x, s[1..], key)
  }

  /** Putting a key no smaller than the head's in front keeps the order. */
  lemma ConsSorted<T>(x: T, s: seq<T>, key: T -> int)
    requires SortedDesc(s, key) && (s == [] || key(x) >= key(s[0]))
    ensures SortedDesc([x] + s, key)
  {
    var t := [x] + s;
    forall i, j | 0 <= i < j < |t| ensures key(t[i]) >= key(t[j]) {
      assert t[j] == s[j - 1];
      if i > 0 {
        assert t[i] == s[i - 1];
      } else if j > 1 {
        assert key(s[0]) >= key(s[j - 1]);
      }
    }
  }

  lemma {:induction false} InsertDescSorted<T>(x: T, s: seq<T>, key: T -> int)
    requires SortedDesc(s, key)
    ensures SortedDesc(InsertDesc(x, s, key), key)
    ensures |InsertDesc(x, s, key)| >= 1
    ensures InsertDesc(x, s, key)[0] == if s == [] || key(x) >= key(s[0]) then x else s[0]
  {
    if s == [] || key(x) >= key(s[0]) {
      ConsSorted(x, s, key);
    } else {
      var tail := s[1..];
      assert SortedDesc(tail, key) by {
        forall i, j | 0 <= i < j < |tail| ensures key(tail[i]) >= key(tail[j]) {
          assert tail[i] == s[i + 1] && tail[j] == s[j + 1];
        }
      }
      InsertDescSorted(x, tail, key);
      var r := InsertDesc(x, tail, key);
      assert key(r[0]) <= key(s[0]) by {
        if tail != [] && key(x) < key(tail[0]) {
          assert tail[0] == s[1];
        }
      }
      ConsSorted(s[0], r, key);
    }
  }

  /** Insertion sort, newest (largest key) first. */
  function SortDesc<T>(s: seq<T>, key: T -> int): (r: seq<T>)
    ensures multiset(r) == multiset(s)
    ensures |r| == |s|
  {
    if s == [] then []
    else
      assert s == [s[0]] + s[1..];
      InsertDesc(s[0], SortDesc(s[1..], key), key)
  }

  lemma {:induction false} SortDescSorted<T>(s: seq<T>, key: T -> int)
    ensures SortedDesc(SortDesc(s, key), key)
  {
    if s != [] {
      SortDescSorted(s[1..], key);
      InsertDescSorted(s[0], SortDesc(s[1..], key), key);
    }
  }

  /** The first row of a descending sort has the largest key of all rows. */
  lemma SortDescHeadIsMax<T>(s: seq<T>, key: T -> int)
    requires s != []
    ensures |SortDesc(s, key)| == |s|
    ensures SortDesc(s, key)[0] in multiset(s)
    ensures forall x :: x in s ==> key(SortDesc(s, key)[0]) >= key(x)
  {
    var r := SortDesc(s, key);
    SortDescSorted(s, key);
    assert r[0] in multiset(r);
    forall x | x in s ensures key(r[0]) >= key(x) {
      assert x in multiset(s);
      assert x in multiset(r);
      var j :| 0 <= j < |r| && r[j] == x;
      if j > 0 { assert key(r[0]) >= key(r[j]); }
    }
  }
}

/** The hosted backend, reduced to what the application observes of it: one
    sequence of rows per table, a counter standing for the server-generated
    `id` and `created_at` columns, and an `ok` flag per call that says whether
    the call succeeded. */
module Store {
  import opened Common
  import opened Query

  /** Pairing methods a garment can be registered with. */
  datatype PairingMethod = Bluetooth | Qr

  /** The columns the application writes into `garments` (its Insert type). */
  datatype GarmentInsert = GarmentInsert(
    userId: string, name: string, kind: string, isPaired: bool,
    bluetoothId: Option<string>, qrCode: Option<string>)

  /** A `garments` row; the backend adds `id` and `created_at`. */
  datatype Garment = Garment(id: nat, createdAt: nat, fields: GarmentInsert)

  datatype GoalType = Steps | Recovery | Stress | Custom

  /** The columns the application writes into `fitness_goals`. */
  datatype GoalInsert = GoalInsert(
    userId: string, title: string, targetValue: int, currentValue: int, goalType: GoalType)

  /** A `fitness_goals` row; `is_completed` starts false. */
  datatype Goal = Goal(id: nat, createdAt: nat, fields: GoalInsert, isCompleted: bool)

  /** An `eco_impact` row; `co2_absorbed_grams` may be null. */
  datatype EcoRecord = EcoRecord(id: nat, userId: string, monthYear: string, co2Grams: Option<real>)

  /** The metric columns of a `health_metrics` row. */
  datatype HealthMetric = HealthMetric(
    heartRate: real, breathingRate: real, stressLevel: int, sleepQuality: int,
    recoveryScore: int, postureStatus: string, bodyTemperature: real, steps: int)

  datatype MetricRow = MetricRow(id: nat, recordedAt: nat, userId: string, metric: HealthMetric)

  /** The answer to a list query: the selected rows, a `null` data object,
      or an error. */
  datatype ListReply = Rows | NullData | Failed

  function GarmentKey(g: Garment): int { g.createdAt }
  function GoalKey(g: Goal): int { g.createdAt }
  function MetricKey(m: MetricRow): int { m.recordedAt }

  /** `select("*").eq("user_id", uid).order("created_at", { ascending: false })` on `garments`. */
  function GarmentsOf(rows: seq<Garment>, uid: string): seq<Garment> {
    SortDesc(Filter(rows, (g: Garment) => g.fields.userId == uid), GarmentKey)
  }

  /** The same query on `fitness_goals`. */
  function GoalsOf(rows: seq<Goal>, uid: string): seq<Goal> {
    SortDesc(Filter(rows, (g: Goal) => g.fields.userId == uid), GoalKey)
  }

  /** Garment listing: only the user's rows, every one of them, newest first. */
  lemma GarmentsOfSpec(rows: seq<Garment>, uid: string)
    ensures forall g :: g in GarmentsOf(rows, uid) <==> g in rows && g.fields.userId == uid
    ensures SortedDesc(GarmentsOf(rows, uid), GarmentKey)
    ensures forall g: Garment :: g.fields.userId == uid ==>
      multiset(GarmentsOf(rows, uid))[g] == multiset(rows)[g]
  {
    var p := (g: Garment) => g.fields.userId == uid;
    SortDescSorted(Filter(rows, p), GarmentKey);
    FilterMultiset(rows, p);
    assert multiset(GarmentsOf(rows, uid)) == multiset(Filter(rows, p));
    forall g ensures g in GarmentsOf(rows, uid) <==> g in rows && g.fields.userId == uid {
      assert g in GarmentsOf(rows, uid) <==> g in multiset(Filter(rows, p));
    }
  }

  /** Goal listing: only the user's rows, every one of them, newest first. */
  lemma GoalsOfSpec(rows: seq<Goal>, uid: string)
    ensures forall g :: g in GoalsOf(rows, uid) <==> g in rows && g.fields.userId == uid
    ensures SortedDesc(GoalsOf(rows, uid), GoalKey)
    ensures forall g: Goal :: g.fields.userId == uid ==>
      multiset(GoalsOf(rows, uid))[g] == multiset(rows)[g]
  {
    var p := (g: Goal) => g.fields.userId == uid;
    SortDescSorted(Filter(rows, p), GoalKey);
    FilterMultiset(rows, p);
    assert multiset(GoalsOf(rows, uid)) == multiset(Filter(rows, p));
    forall g ensures g in GoalsOf(rows, uid) <==> g in rows && g.fields.userId == uid {
      assert g in GoalsOf(rows, uid) <==> g in multiset(Filter(rows, p));
    }
  }

  /** `.eq("user_id", uid).eq("month_year", key)` on `eco_impact`. */
  function EcoMatches(rows: seq<EcoRecord>, uid: string, key: string): seq<EcoRecord> {
    Filter(rows, (e: EcoRecord) => e.userId == uid && e.monthYear == key)
  }

  /** `.single()` yields a data object only when exactly one row matches. */
  function EcoLookup(rows: seq<EcoRecord>, uid: string, key: string): (r: Option<EcoRecord>)
    ensures r.Some? <==> |EcoMatches(rows, uid, key)| == 1
    ensures r.Some? ==> r.value in rows && r.value.userId == uid && r.value.monthYear == key
  {
    var m := EcoMatches(rows, uid, key);
    if |m| == 1 then Some(m[0]) else None
  }

  /** `.eq("user_id", uid).order("recorded_at", desc).limit(1).single()`. */
  function LatestMetric(rows: seq<MetricRow>, uid: string): Option<MetricRow> {
    var mine := Filter(rows, (m: MetricRow) => m.userId == uid);
    if mine == [] then None else Some(SortDesc(mine, MetricKey)[0])
  }

  /** The latest-sample query finds a row iff the user has one, and it is one
      of the user's rows recorded no earlier than any other. */
  lemma LatestMetricSpec(rows: seq<MetricRow>, uid: string)
    ensures LatestMetric(rows, uid).Some? <==> exists m :: m in rows && m.userId == uid
    ensures LatestMetric(rows, uid).Some? ==>
      var l := LatestMetric(rows, uid).value;
      l in rows && l.userId == uid &&
      forall m :: m in rows && m.userId == uid ==> l.recordedAt >= m.recordedAt
  {
    var p := (m: MetricRow) => m.userId == uid;
    var mine := Filter(rows, p);
    forall m | m in rows && m.userId == uid ensures m in mine {
      var i :| 0 <= i < |rows| && rows[i] == m;
    }
    if mine != [] {
      SortDescHeadIsMax(mine, MetricKey);
      var l := SortDesc(mine, MetricKey)[0];
      assert l in mine;
    }
  }

  /** `.delete().eq("id", id)`: drops exactly the rows with that id. */
  function DeleteById(rows: seq<Garment>, id: nat): (r: seq<Garment>)
    ensures forall g :: g in r <==> g in rows && g.id != id
  {
    Filter(rows, (g: Garment) => g.id != id)
  }

  /** `.update({ is_completed: v }).eq("id", id)`. */
  function SetCompleted(rows: seq<Goal>, id: nat, v: bool): (r: seq<Goal>)
  {
    seq(|rows|, i requires 0 <= i < |rows| => if rows[i].id == id then rows[i].(isCompleted := v) else rows[i])
  }

  /** The update touches the completion flag of exactly the rows with that id. */
  lemma SetCompletedSpec(rows: seq<Goal>, id: nat, v: bool)
    ensures |SetCompleted(rows, id, v)| == |rows|
    ensures forall i :: 0 <= i < |rows| ==>
      var r := SetCompleted(rows, id, v)[i];
      r.id == rows[i].id && r.createdAt == rows[i].createdAt && r.fields == rows[i].fields &&
      r.isCompleted == (if rows[i].id == id then v else rows[i].isCompleted)
  {
  }

  /** Every row's generated columns lie below counter value `n`. */
  predicate GarmentsBelow(rows: seq<Garment>, n: nat) {
    forall i :: 0 <= i < |rows| ==> rows[i].id < n && rows[i].createdAt < n
  }

  predicate GoalsBelow(rows: seq<Goal>, n: nat) {
    forall i :: 0 <= i < |rows| ==> rows[i].id < n && rows[i].createdAt < n
  }

  predicate EcoBelow(rows: seq<EcoRecord>, n: nat) {
    forall i :: 0 <= i < |rows| ==> rows[i].id < n
  }

  predicate MetricsBelow(rows: seq<MetricRow>, n: nat) {
    forall i :: 0 <= i < |rows| ==> rows[i].id < n && rows[i].recordedAt < n
  }

  class Backend {
    var garments: seq<Garment>
    var goals: seq<Goal>
    var eco: seq<EcoRecord>
    var metrics: seq<MetricRow>
    /** Source of fresh `id` and `created_at` values: each insert takes the
        current value and advances it. */
    var nextId: nat

    /** Every stored `id`, `created_at` and `recorded_at` was drawn from the
        counter before its current value, so the next insert's `id` is new. */
    ghost predicate Valid()
      reads this
    {
      GarmentsBelow(garments, nextId) && GoalsBelow(goals, nextId) &&
      EcoBelow(eco, nextId) && MetricsBelow(metrics, nextId)
    }

    constructor ()
      ensures Valid()
      ensures garments == [] && goals == [] && eco == [] && metrics == [] && nextId == 0
    {
      garments, goals, eco, metrics, nextId := [], [], [], [], 0;
    }

    method InsertGarment(row: GarmentInsert, ok: bool) returns (error: bool)
      requires Valid()
      modifies this
      ensures Valid()
      ensures ok ==> forall i :: 0 <= i < |garments| - 1 ==> garments[i].id != garments[|garments| - 1].id
      ensures error == !ok
      ensures garments == if ok then old(garments) + [Garment(old(nextId), old(nextId), row)] else old(garments)
      ensures nextId == if ok then old(nextId) + 1 else old(nextId)
      ensures goals == old(goals) && eco == old(eco) && metrics == old(metrics)
    {
      error := !ok;
      if ok {
        garments := garments + [Garment(nextId, nextId, row)];
        nextId := nextId + 1;
      }
    }

    method DeleteGarment(id: nat, ok: bool) returns (error: bool)
      requires Valid()
      modifies this
      ensures Valid()
      ensures error == !ok
      ensures garments == if ok then DeleteById(old(garments), id) else old(garments)
      ensures goals == old(goals) && eco == old(eco) && metrics == old(metrics) && nextId == old(nextId)
    {
      error := !ok;
      if ok {
        garments := DeleteById(garments, id);
      }
    }

    method InsertGoal(row: GoalInsert, ok: bool) returns (error: bool)
      requires Valid()
      modifies this
      ensures Valid()
      ensures ok ==> forall i :: 0 <= i < |goals| - 1 ==> goals[i].id != goals[|goals| - 1].id
      ensures error == !ok
      ensures goals == if ok then old(goals) + [Goal(old(nextId), old(nextId), row, false)] else old(goals)
      ensures nextId == if ok then old(nextId) + 1 else old(nextId)
      ensures garments == old(garments) && eco == old(eco) && metrics == old(metrics)
    {
      error := !ok;
      if ok {
        goals := goals + [Goal(nextId, nextId, row, false)];
        nextId := nextId + 1;
      }
    }

    method UpdateGoalCompleted(id: nat, v: bool, ok: bool) returns (error: bool)
      requires Valid()
      modifies this
      ensures Valid()
      ensures error == !ok
      ensures goals == if ok then SetCompleted(old(goals), id, v) else old(goals)
      ensures garments == old(garments) && eco == old(eco) && metrics == old(metrics) && nextId == old(nextId)
    {
      error := !ok;
      if ok {
        goals := SetCompleted(goals, id, v);
      }
    }

    method InsertEco(uid: string, key: string, grams: real, ok: bool) returns (error: bool)
      requires Valid()
      modifies this
      ensures Valid()
      ensures ok ==> forall i :: 0 <= i < |eco| - 1 ==> eco[i].id != eco[|eco| - 1].id
      ensures error == !ok
      ensures eco == if ok then old(eco) + [EcoRecord(old(nextId), uid, key, Some(grams))] else old(eco)
      ensures nextId == if ok then old(nextId) + 1 else old(nextId)
      ensures garments == old(garments) && goals == old(goals) && metrics == old(metrics)
    {
      error := !ok;
      if ok {
        eco := eco + [EcoRecord(nextId, uid, key, Some(grams))];
        nextId := nextId + 1;
      }
    }

    method InsertMetric(uid: string, m: HealthMetric, ok: bool) returns (error: bool)
      requires Valid()
      modifies this
      ensures Valid()
      ensures ok ==> forall i :: 0 <= i < |metrics| - 1 ==> metrics[i].id != metrics[|metrics| - 1].id
      ensures error == !ok
      ensures metrics == if ok then old(metrics) + [MetricRow(old(nextId), old(nextId), uid, m)] else old(metrics)
      ensures nextId == if ok then old(nextId) + 1 else old(nextId)
      ensures garments == old(garments) && goals == old(goals) && eco == old(eco)
    {
      error := !ok;
      if ok {
        metrics := metrics + [MetricRow(nextId, nextId, uid, m)];
        nextId := nextId + 1;
      }
    }
  }

  /** A request the application sends to the auth server. */
  datatype AuthRequest =
    | SignUp(email: string, password: string, fullName: string, emailRedirectTo: string)
    | SignInWithPassword(email: string, password: string)
    | VerifyOtp(email: string, token: string, otpType: string)
    | SignOut

  /** The auth server, reduced to the log of requests it has received. Its
      answers are parameters of the handlers that await them. */
  class AuthClient {
    var requests: seq<AuthRequest>

    constructor ()
      ensures requests == []
    {
      requests := [];
    }

    method Send(req: AuthRequest)
      modifies this
      ensures requests == old(requests) + [req]
    {
      requests := requests + [req];
    }
  }
}
