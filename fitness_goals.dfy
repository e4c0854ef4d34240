/** The fitness goals widget (`FitnessGoals`): validating and adding a custom
    goal, toggling completion, seeding three default goals, and the width of
    each goal's progress bar. */
module FitnessGoals {
  import opened Common
  import opened Store

  /** The characters JavaScript's `String.prototype.trim` removes: the
      WhiteSpace and LineTerminator code points of ECMAScript. */
  predicate IsSpace(c: char) {
    c == ' ' || c == '\t' || c == '\n' || c == '\r' || c == '\U{B}' || c == '\U{C}' ||
    c == '\U{A0}' || c == '\U{1680}' || ('\U{2000}' <= c <= '\U{200A}') ||
    c == '\U{2028}' || c == '\U{2029}' || c == '\U{202F}' || c == '\U{205F}' ||
    c == '\U{3000}' || c == '\U{FEFF}'
  }

  /** The number of white-space characters `s` starts with. */
  function LeadingSpaces(s: string): (k: nat)
    ensures k <= |s| && (k == |s| || !IsSpace(s[k]))
    ensures forall i :: 0 <= i < k ==> IsSpace(s[i])
    decreases |s|
  {
    if s != [] && IsSpace(s[0]) then
      var k := LeadingSpaces(s[1..]);
      assert forall i :: 1 <= i < k + 1 ==> s[i] == s[1..][i - 1];
      k + 1
    else 0
  }

  function TrimStart(s: string): (r: string)
    ensures |r| <= |s| && forall i :: 0 <= i < |r| ==> r[i] == s[i + (|s| - |r|)]
    ensures r == [] || !IsSpace(r[0])
    ensures forall i :: 0 <= i < |s| - |r| ==> IsSpace(s[i])
  {
    s[LeadingSpaces(s)..]
  }

  function TrimEnd(s: string): (r: string)
    ensures |r| <= |s| && forall i :: 0 <= i < |r| ==> r[i] == s[i]
    ensures r == [] || !IsSpace(r[|r| - 1])
    ensures forall i :: |r| <= i < |s| ==> IsSpace(s[i])
  {
    if s != [] && IsSpace(s[|s| - 1]) then TrimEnd(s[..|s| - 1]) else s
  }

  /** `s.trim()` */
  function Trim(s: string): (r: string)
    ensures r == [] || (!IsSpace(r[0]) && !IsSpace(r[|r| - 1]))
  {
    TrimEnd(TrimStart(s))
  }

  /** Trimming a trimmed string changes nothing. */
  lemma TrimIdempotent(s: string)
    ensures Trim(Trim(s)) == Trim(s)
  {
    var t := Trim(s);
    assert TrimStart(t) == t;
    assert TrimEnd(t) == t;
  }

  /** A title trims to nothing exactly when every character is white space. */
  lemma {:induction false} TrimEmpty(s: string)
    ensures Trim(s) == [] <==> forall i :: 0 <= i < |s| ==> IsSpace(s[i])
  {
    var a := TrimStart(s);
    var t := TrimEnd(a);
    var k := |s| - |a|;
    if t == [] {
      assert a == [];
    } else {
      assert t[0] == a[0] && a[0] == s[k];
    }
  }

  /** The outcome of `goalSchema.parse` (or of the number check before it):
      the validated title and target, or the message shown to the user. */
  datatype Validation = Valid(title: string, target: int) | Invalid(message: string)

  /** The title's part of `goalSchema`: `.trim().min(1).max(200)`, whose
      bounds count the trimmed title's UTF-16 code units; `None` when the
      title passes, else the first message. */
  function TitleIssue(title: string): (m: Option<string>)
    ensures m.None? <==> 1 <= Utf16Length(Trim(title)) <= 200
    ensures Trim(title) == [] ==> m == Some("Title is required")
    ensures Utf16Length(Trim(title)) > 200 ==> m == Some("Title must be less than 200 characters")
  {
    var t := Trim(title);
    if Utf16Length(t) < 1 then Some("Title is required")
    else if Utf16Length(t) > 200 then Some("Title must be less than 200 characters")
    else None
  }

  /** `goalSchema` applied to a title and a whole-number target. zod reports
      the title's issue before the target's, and `errors[0]` is shown. */
  function GoalSchema(title: string, target: int): (r: Validation)
    ensures r.Valid? <==> 1 <= Utf16Length(Trim(title)) <= 200 && 0 < target <= 1000000
    ensures r.Valid? ==> r.title == Trim(title) && r.target == target
    ensures Trim(title) == [] ==> r == Invalid("Title is required")
    ensures Utf16Length(Trim(title)) > 200 ==> r == Invalid("Title must be less than 200 characters")
    ensures 1 <= Utf16Length(Trim(title)) <= 200 && target <= 0 ==> r == Invalid("Must be greater than 0")
    ensures 1 <= Utf16Length(Trim(title)) <= 200 && target > 1000000 ==> r == Invalid("Value too large")
  {
    var issue := TitleIssue(title);
    if issue.Some? then Invalid(issue.value)
    else if target <= 0 then Invalid("Must be greater than 0")
    else if target > 1000000 then Invalid("Value too large")
    else Valid(Trim(title), target)
  }

  /** What `parseInt(newGoalTarget)` yields: NaN, a whole number, or an
      infinity, which a run of digits too long for a double produces. */
  datatype ParsedInt = NotANumber | Whole(n: int) | Infinite(negative: bool)

  /** `handleAddGoal`'s checks: NaN is refused before the schema runs; an
      infinity reaches the schema, where it fails `.int()` ("Must be a whole
      number"), which zod lists before the target's other issues. */
  function CheckNewGoal(title: string, parsed: ParsedInt): (r: Validation)
    ensures parsed.NotANumber? ==> r == Invalid("Please enter a valid number")
    ensures parsed.Whole? ==> r == GoalSchema(title, parsed.n)
    ensures parsed.Infinite? ==> r.Invalid?
    ensures parsed.Infinite? && 1 <= Utf16Length(Trim(title)) <= 200 ==> r == Invalid("Must be a whole number")
    ensures parsed.Infinite? && Trim(title) == [] ==> r == Invalid("Title is required")
    ensures parsed.Infinite? && Utf16Length(Trim(title)) > 200 ==>
      r == Invalid("Title must be less than 200 characters")
  {
    match parsed
    case NotANumber => Invalid("Please enter a valid number")
    case Whole(n) => GoalSchema(title, n)
    case Infinite(_) =>
      var issue := TitleIssue(title);
      if issue.Some? then Invalid(issue.value) else Invalid("Must be a whole number")
  }

  /** A title of white space only is refused with "Title is required",
      whatever number the target parses to. */
  lemma BlankTitleRefused(title: string, parsed: ParsedInt)
    requires forall i :: 0 <= i < |title| ==> IsSpace(title[i])
    ensures CheckNewGoal(title, parsed) ==
      if parsed.NotANumber? then Invalid("Please enter a valid number") else Invalid("Title is required")
  {
    TrimEmpty(title);
  }

  /** The schema sees a title only through its trimmed form. */
  lemma SchemaSeesTrimOnly(a: string, b: string, target: int)
    requires Trim(a) == Trim(b)
    ensures GoalSchema(a, target) == GoalSchema(b, target)
  {
  }

  /** A validated goal is stored in trimmed form, so validating it again
      gives the same outcome. */
  lemma ValidatedGoalRevalidates(title: string, target: int)
    ensures GoalSchema(Trim(title), target) == GoalSchema(title, target)
  {
    TrimIdempotent(title);
    SchemaSeesTrimOnly(Trim(title), title, target);
  }

  /** The row inserted for an accepted goal. */
  function CustomGoal(userId: string, v: Validation): GoalInsert
    requires v.Valid?
  {
    GoalInsert(userId, v.title, v.target, 0, Custom)
  }

  /** The three goals inserted, in this order, when the goal query yields no data. */
  function DefaultGoals(userId: string): (d: seq<GoalInsert>)
    ensures |d| == 3
  {
    [ GoalInsert(userId, "Walk 10,000 Steps Daily", 10000, 4523, Steps),
      GoalInsert(userId, "Improve Recovery Score to 85", 85, 78, Recovery),
      GoalInsert(userId, "Lower Stress Below 30%", 30, 35, Stress) ]
  }

  /** The inserts whose outcome flag is true, in order. */
  function Kept(s: seq<GoalInsert>, oks: seq<bool>): (r: seq<GoalInsert>)
    requires |s| == |oks|
    ensures |r| <= |s|
    decreases |s|
  {
    if s == [] then []
    else Kept(s[..|s| - 1], oks[..|oks| - 1]) + (if oks[|oks| - 1] then [s[|s| - 1]] else [])
  }

  function Fields(rows: seq<Goal>): (r: seq<GoalInsert>)
    ensures |r| == |rows|
  {
    seq(|rows|, i requires 0 <= i < |rows| => rows[i].fields)
  }

  /** When every seed insert succeeds, exactly the three defaults are stored, in order. */
  lemma {:induction false} KeptAll(s: seq<GoalInsert>, oks: seq<bool>)
    requires |s| == |oks| && forall i :: 0 <= i < |oks| ==> oks[i]
    ensures Kept(s, oks) == s
    decreases |s|
  {
    if s != [] {
      KeptAll(s[..|s| - 1], oks[..|oks| - 1]);
      assert s == s[..|s| - 1] + [s[|s| - 1]];
    }
  }

  /** The bar's width in percent: `Math.min((current / target) * 100, 100)`.
      `None` stands for the non-finite results of a zero target (NaN, or
      negative infinity); a positive current over a zero target is infinity,
      which the minimum turns into 100. */
  function ProgressWidth(current: int, target: int): (w: Option<real>)
    ensures w.Some? ==> w.value <= 100.0
    ensures target != 0 ==> w.Some?
    ensures target > 0 && current >= 0 ==> 0.0 <= w.value
    ensures target > 0 ==> (w.value == 100.0 <==> current >= target)
    ensures target == 0 ==> (w.Some? <==> current > 0)
  {
    if target == 0 then (if current > 0 then Some(100.0) else None)
    else
      var raw := (current as real / target as real) * 100.0;
      Some(if raw < 100.0 then raw else 100.0)
  }

  /** Rows inserted one after another from counter value `start`: the k-th
      has `id` and `created_at` both `start + k`, and is not completed. */
  predicate Seeded(rows: seq<Goal>, start: nat) {
    forall k :: 0 <= k < |rows| ==>
      rows[k].id == start + k && rows[k].createdAt == rows[k].id && !rows[k].isCompleted
  }

  lemma SeededAppend(rows: seq<Goal>, start: nat, g: Goal)
    requires Seeded(rows, start)
    requires g.id == start + |rows| && g.createdAt == g.id && !g.isCompleted
    ensures Seeded(rows + [g], start)
  {
    var t := rows + [g];
    forall k | 0 <= k < |t|
      ensures t[k].id == start + k && t[k].createdAt == t[k].id && !t[k].isCompleted
    {
      if k < |rows| { assert t[k] == rows[k]; }
    }
  }

  /** One turn of the seeding loop: the i-th insert, kept or not, extends
      the seeded suffix as `Kept` and `Seeded` describe. */
  lemma SeedStep(g0: seq<Goal>, before: seq<Goal>, after: seq<Goal>, n0: nat, next: nat,
                 d: seq<GoalInsert>, oks: seq<bool>, i: nat)
    requires |d| == |oks| && i < |d|
    requires |before| >= |g0| && before[..|g0|] == g0
    requires Fields(before[|g0|..]) == Kept(d[..i], oks[..i]) && Seeded(before[|g0|..], n0)
    requires next == n0 + (|before| - |g0|)
    requires after == if oks[i] then before + [Goal(next, next, d[i], false)] else before
    ensures |after| >= |g0| && after[..|g0|] == g0
    ensures Fields(after[|g0|..]) == Kept(d[..i + 1], oks[..i + 1]) && Seeded(after[|g0|..], n0)
  {
    assert d[..i + 1][..i] == d[..i] && oks[..i + 1][..i] == oks[..i];
    if oks[i] {
      var g := Goal(next, next, d[i], false);
      assert after[|g0|..] == before[|g0|..] + [g];
      SeededAppend(before[|g0|..], n0, g);
      assert Fields(after[|g0|..]) == Fields(before[|g0|..]) + [d[i]];
    }
  }

  class FitnessGoalsWidget {
    const userId: string
    var goals: seq<Goal>
    var isAdding: bool
    var newGoalTitle: string
    var newGoalTarget: string
    var toasts: seq<Toast>
    /** Calls of `fetchGoals` started and not awaited by a handler. */
    var refetches: nat

    constructor (uid: string)
      ensures userId == uid && goals == [] && !isAdding && newGoalTitle == "" && newGoalTarget == ""
      ensures toasts == [] && refetches == 0
    {
      userId := uid;
      goals, isAdding, newGoalTitle, newGoalTarget := [], false, "", "";
      toasts, refetches := [], 0;
    }

    /** The "Add Goal" button toggles the form. */
    method ToggleForm()
      modifies this
      ensures isAdding == !old(isAdding)
      ensures goals == old(goals) && newGoalTitle == old(newGoalTitle) && newGoalTarget == old(newGoalTarget)
      ensures toasts == old(toasts) && refetches == old(refetches)
    {
      isAdding := !isAdding;
    }

    method SetInputs(title: string, target: string)
      modifies this
      ensures newGoalTitle == title && newGoalTarget == target
      ensures goals == old(goals) && isAdding == old(isAdding)
      ensures toasts == old(toasts) && refetches == old(refetches)
    {
      newGoalTitle, newGoalTarget := title, target;
    }

    /** `fetchGoals`: `queryOk` says whether the query returned its data
        array (an empty array counts); otherwise `data` is null and the
        defaults are inserted one after another, `oks[i]` being the outcome of
        the i-th insert, after which a refetch is started. */
    method FetchGoals(db: Backend, queryOk: bool, oks: seq<bool>)
      requires |oks| == 3 && db.Valid()
      modifies this, db
      ensures db.Valid()
      ensures queryOk ==> goals == GoalsOf(old(db.goals), userId) && db.goals == old(db.goals)
      ensures queryOk ==> refetches == old(refetches) && db.nextId == old(db.nextId)
      ensures !queryOk ==> goals == old(goals) && refetches == old(refetches) + 1
      ensures !queryOk ==>
        |db.goals| >= |old(db.goals)| && db.goals[..|old(db.goals)|] == old(db.goals) &&
        Fields(db.goals[|old(db.goals)|..]) == Kept(DefaultGoals(userId), oks) &&
        Seeded(db.goals[|old(db.goals)|..], old(db.nextId)) &&
        db.nextId == old(db.nextId) + |Kept(DefaultGoals(userId), oks)|
      ensures db.garments == old(db.garments) && db.eco == old(db.eco) && db.metrics == old(db.metrics)
      ensures isAdding == old(isAdding) && newGoalTitle == old(newGoalTitle) && newGoalTarget == old(newGoalTarget)
      ensures toasts == old(toasts)
    {
      if queryOk {
        goals := GoalsOf(db.goals, userId);
        return;
      }
      SeedDefaults(db, oks);
      refetches := refetches + 1;
    }

    /** The `for` loop of `fetchGoals`: the three defaults inserted one after
        another, `oks[i]` being the outcome of the i-th insert. The rows kept
        are appended in order, uncompleted, with consecutive new ids. */
    method SeedDefaults(db: Backend, oks: seq<bool>)
      requires |oks| == 3 && db.Valid()
      modifies db
      ensures db.Valid()
      ensures |db.goals| >= |old(db.goals)| && db.goals[..|old(db.goals)|] == old(db.goals)
      ensures Fields(db.goals[|old(db.goals)|..]) == Kept(DefaultGoals(userId), oks)
      ensures Seeded(db.goals[|old(db.goals)|..], old(db.nextId))
      ensures db.nextId == old(db.nextId) + |Kept(DefaultGoals(userId), oks)|
      ensures db.garments == old(db.garments) && db.eco == old(db.eco) && db.metrics == old(db.metrics)
    {
      var defaults := DefaultGoals(userId);
      ghost var g0, n0 := db.goals, db.nextId;
      var i := 0;
      while i < 3
        invariant 0 <= i <= 3
        invariant |db.goals| >= |g0| && db.goals[..|g0|] == g0
        invariant Fields(db.goals[|g0|..]) == Kept(defaults[..i], oks[..i])
        invariant Seeded(db.goals[|g0|..], n0)
        invariant db.nextId == n0 + (|db.goals| - |g0|)
        invariant db.Valid()
        invariant db.garments == old(db.garments) && db.eco == old(db.eco) && db.metrics == old(db.metrics)
      {
        ghost var before, next := db.goals, db.nextId;
        var _ := db.InsertGoal(defaults[i], oks[i]);
        SeedStep(g0, before, db.goals, n0, next, defaults, oks, i);
        i := i + 1;
      }
      assert defaults[..3] == defaults && oks[..3] == oks;
    }

    /** `handleAddGoal`, with `parseInt(newGoalTarget)` as `parsed` and the
        insert's outcome as `ok`; its button renders only while the form is open. */
    method HandleAddGoal(db: Backend, parsed: ParsedInt, ok: bool)
      requires isAdding
      requires db.Valid()
      modifies this, db
      ensures db.Valid()
      ensures var v := CheckNewGoal(old(newGoalTitle), parsed);
        && (v.Invalid? ==>
              toasts == old(toasts) + [Error(v.message)] && db.goals == old(db.goals) &&
              db.nextId == old(db.nextId) &&
              newGoalTitle == old(newGoalTitle) && newGoalTarget == old(newGoalTarget) &&
              isAdding == old(isAdding) && refetches == old(refetches))
        && (v.Valid? ==>
              db.goals == (if ok
                then old(db.goals) + [Goal(old(db.nextId), old(db.nextId), CustomGoal(userId, v), false)]
                else old(db.goals)) &&
              db.nextId == old(db.nextId) + (if ok then 1 else 0))
        && (v.Valid? && !ok ==>
              toasts == old(toasts) + [Error("Failed to add goal")] &&
              newGoalTitle == old(newGoalTitle) && newGoalTarget == old(newGoalTarget) &&
              isAdding == old(isAdding) && refetches == old(refetches))
        && (v.Valid? && ok ==>
              toasts == old(toasts) + [Info("Goal added!")] &&
              newGoalTitle == "" && newGoalTarget == "" && !isAdding && refetches == old(refetches) + 1)
      ensures goals == old(goals)
      ensures db.garments == old(db.garments) && db.eco == old(db.eco) && db.metrics == old(db.metrics)
    {
      var v := CheckNewGoal(newGoalTitle, parsed);
      if v.Invalid? {
        toasts := toasts + [Error(v.message)];
        return;
      }
      var error := db.InsertGoal(CustomGoal(userId, v), ok);
      if error {
        toasts := toasts + [Error("Failed to add goal")];
      } else {
        toasts := toasts + [Info("Goal added!")];
        newGoalTitle := "";
        newGoalTarget := "";
        isAdding := false;
        refetches := refetches + 1;
      }
    }

    /** `toggleGoalComplete(goalId, isCompleted)`: the update's outcome is
        ignored and a refetch follows either way. */
    method ToggleGoalComplete(db: Backend, goalId: nat, isCompleted: bool, ok: bool)
      requires db.Valid()
      modifies this, db
      ensures db.Valid()
      ensures db.goals == if ok then SetCompleted(old(db.goals), goalId, !isCompleted) else old(db.goals)
      ensures refetches == old(refetches) + 1
      ensures db.garments == old(db.garments) && db.eco == old(db.eco) && db.metrics == old(db.metrics)
      ensures db.nextId == old(db.nextId)
      ensures goals == old(goals) && isAdding == old(isAdding) && toasts == old(toasts)
      ensures newGoalTitle == old(newGoalTitle) && newGoalTarget == old(newGoalTarget)
    {
      var _ := db.UpdateGoalCompleted(goalId, !isCompleted, ok);
      refetches := refetches + 1;
    }
  }
}
