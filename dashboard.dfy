/** The dashboard's figures and plan rules (Dashboard.jsx and
    DashboardStats.jsx in managify-frontend/src/components/dashboard). A
    JavaScript field that may be missing, null or a number is an
    `Option<int>`; `x || 0` reads a missing field as 0. */
module Dashboard {
  import opened Common

  // ---------------------------------------------------------------------
  // Sums over the user's projects

  /** The per-project numbers the dashboard adds up. */
  datatype ProjectSummary = ProjectSummary(totalIssues: Option<int>, completedIssues: Option<int>,
                                           teamSize: Option<int>)

  /** `x || 0` on a number field. */
  function OrZero(x: Option<int>): (n: int)
    ensures x.None? ==> n == 0
    ensures x.Some? ==> n == x.value
  {
    if x.Some? then x.value else 0
  }

  datatype Field = TotalIssues | CompletedIssues | TeamSize

  function FieldOf(p: ProjectSummary, f: Field): Option<int>
  {
    match f
    case TotalIssues => p.totalIssues
    case CompletedIssues => p.completedIssues
    case TeamSize => p.teamSize
  }

  /** `projects.reduce((sum, p) => sum + (p.field || 0), 0)`: a left fold,
      so the last project is added last. */
  function Sum(projects: seq<ProjectSummary>, f: Field): (total: int)
    ensures (forall i :: 0 <= i < |projects| ==> FieldOf(projects[i], f).None?) ==> total == 0
    ensures |projects| == 1 ==> total == OrZero(FieldOf(projects[0], f))
  {
    if projects == [] then 0
    else Sum(projects[..|projects| - 1], f) + OrZero(FieldOf(projects[|projects| - 1], f))
  }

  /** The sum of a concatenation is the sum of its parts. */
  lemma {:induction false} SumAppend(a: seq<ProjectSummary>, b: seq<ProjectSummary>, f: Field)
    ensures Sum(a + b, f) == Sum(a, f) + Sum(b, f)
    decreases |b|
  {
    if b == [] {
      assert a + b == a;
    } else {
      assert (a + b)[..|a + b| - 1] == a + b[..|b| - 1];
      SumAppend(a, b[..|b| - 1], f);
    }
  }

  /** A project whose field is missing adds nothing. */
  lemma {:induction false} SumSkipsMissing(a: seq<ProjectSummary>, p: ProjectSummary, f: Field)
    requires FieldOf(p, f).None?
    ensures Sum(a + [p], f) == Sum(a, f)
  {
    assert (a + [p])[..|a + [p]| - 1] == a;
  }

  /** When no project reports more completed than total issues, the
      completed figure never exceeds the total one. */
  lemma {:induction false} CompletedAtMostTotal(projects: seq<ProjectSummary>)
    requires forall i :: 0 <= i < |projects| ==>
               OrZero(projects[i].completedIssues) <= OrZero(projects[i].totalIssues)
    ensures Sum(projects, CompletedIssues) <= Sum(projects, TotalIssues)
  {
    if projects != [] {
      CompletedAtMostTotal(projects[..|projects| - 1]);
    }
  }

  /** With no negative field values every sum is non-negative. */
  lemma {:induction false} SumNonNegative(projects: seq<ProjectSummary>, f: Field)
    requires forall i :: 0 <= i < |projects| ==> OrZero(FieldOf(projects[i], f)) >= 0
    ensures Sum(projects, f) >= 0
  {
    if projects != [] {
      SumNonNegative(projects[..|projects| - 1], f);
    }
  }

  // ---------------------------------------------------------------------
  // The greeting

  /** `s.split(' ')[0]`: the text before the first space, or all of it. */
  function FirstToken(s: string): (t: string)
    ensures |t| <= |s| && t == s[..|t|]
    ensures ' ' !in t
    ensures |t| < |s| ==> s[|t|] == ' '
  {
    if s == [] || s[0] == ' ' then []
    else [s[0]] + FirstToken(s[1..])
  }

  /** `(full_name || name || 'User').split(' ')[0]`: an empty or missing
      full name falls back to the name, then to "User". */
  function FirstName(fullName: Option<string>, name: Option<string>): (first: string)
    ensures fullName.Some? && fullName.value != "" ==> first == FirstToken(fullName.value)
    ensures !(fullName.Some? && fullName.value != "") && name.Some? && name.value != "" ==>
              first == FirstToken(name.value)
    ensures !(fullName.Some? && fullName.value != "") && !(name.Some? && name.value != "") ==> first == "User"
  {
    var shown := if fullName.Some? && fullName.value != "" then fullName.value
                 else if name.Some? && name.value != "" then name.value
                 else "User";
    FirstToken(shown)
  }

  /** A name without spaces is its own first token. */
  lemma {:induction false} FirstTokenOfWord(s: string)
    requires ' ' !in s
    ensures FirstToken(s) == s
  {
    if s != [] {
      assert s[0] in s;
      assert forall c :: c in s[1..] ==> c in s;
      FirstTokenOfWord(s[1..]);
    }
  }

  lemma FirstNameFallback()
    ensures FirstName(None, None) == "User"
    ensures FirstName(Some(""), Some("")) == "User"
  {
    FirstTokenOfWord("User");
  }

  // ---------------------------------------------------------------------
  // Plan rules

  /** A plan's project limit. */
  datatype Limit = Finite(n: nat) | Unlimited

  /** The plan rule both components apply to a plan type: 3 for BASIC, 10
      for PREMIUM, no limit for anything else, a missing plan included. */
  function PlanLimit(plan: Option<string>): (l: Limit)
    ensures plan == Some("BASIC") <==> l == Finite(3)
    ensures plan == Some("PREMIUM") <==> l == Finite(10)
    ensures l.Unlimited? <==> plan != Some("BASIC") && plan != Some("PREMIUM")
  {
    if plan == Some("BASIC") then Finite(3)
    else if plan == Some("PREMIUM") then Finite(10)
    else Unlimited
  }

  function LimitText(l: Limit): (t: string)
    ensures l == Finite(3) ==> t == "3"
    ensures l == Finite(10) ==> t == "10"
    ensures l.Unlimited? ==> t == "∞"
  {
    match l
    case Unlimited => "∞"
    case Finite(n) => if n == 3 then "3" else if n == 10 then "10" else "?"
  }

  /** The "Project Limit" text of the subscription card. */
  function ProjectLimitLabel(plan: Option<string>): (t: string)
    ensures plan == Some("BASIC") ==> t == "3"
    ensures plan == Some("PREMIUM") ==> t == "10"
    ensures plan != Some("BASIC") && plan != Some("PREMIUM") ==> t == "∞"
  {
    LimitText(PlanLimit(plan))
  }

  /** The limit warning: BASIC with at least three projects. A missing
      project count compares false. */
  function ShowLimitWarning(plan: Option<string>, projectSize: Option<int>): (b: bool)
    ensures b <==> plan == Some("BASIC") && projectSize.Some? && projectSize.value >= 3
  {
    plan == Some("BASIC") && projectSize.Some? && projectSize.value >= 3
  }

  /** The warning is shown exactly when a BASIC user has reached the limit
      the card shows. */
  lemma WarningAtLimit(plan: Option<string>, projectSize: Option<int>)
    ensures ShowLimitWarning(plan, projectSize) <==>
              PlanLimit(plan) == Finite(3) && projectSize.Some? && projectSize.value >= PlanLimit(plan).n
  {
  }

  /** The upgrade button: every plan except PRO, a missing plan included. */
  function ShowUpgrade(plan: Option<string>): (b: bool)
    ensures b <==> plan != Some("PRO")
  {
    plan != Some("PRO")
  }

  /** The upgrade button is offered on every plan that has a project limit,
      so in particular whenever the limit warning shows; only PRO, which is
      unlimited, hides it. */
  lemma UpgradeWhenLimited(plan: Option<string>, projectSize: Option<int>)
    ensures PlanLimit(plan).Finite? ==> ShowUpgrade(plan)
    ensures ShowLimitWarning(plan, projectSize) ==> ShowUpgrade(plan)
    ensures !ShowUpgrade(plan) ==> PlanLimit(plan).Unlimited? && !ShowLimitWarning(plan, projectSize)
  {
  }

  // ---------------------------------------------------------------------
  // Colour lookups: exact keys, 'default' otherwise

  function PlanColor(plan: Option<string>): (c: string)
    ensures plan == Some("PREMIUM") ==> c == "blue"
    ensures plan == Some("PRO") ==> c == "gold"
    ensures plan != Some("PREMIUM") && plan != Some("PRO") ==> c == "default"
  {
    if plan == Some("PREMIUM") then "blue"
    else if plan == Some("PRO") then "gold"
    else "default"
  }

  function PriorityColor(priority: Option<string>): (c: string)
    ensures priority == Some("LOW") ==> c == "green"
    ensures priority == Some("MEDIUM") ==> c == "blue"
    ensures priority == Some("HIGH") ==> c == "orange"
    ensures priority == Some("URGENT") || priority == Some("CRITICAL") ==> c == "red"
    ensures !(priority.Some? && priority.value in {"LOW", "MEDIUM", "HIGH", "URGENT", "CRITICAL"}) ==> c == "default"
  {
    match priority
    case None => "default"
    case Some(p) =>
      if p == "LOW" then "green"
      else if p == "MEDIUM" then "blue"
      else if p == "HIGH" then "orange"
      else if p == "URGENT" || p == "CRITICAL" then "red"
      else "default"
  }

  function StatusColor(status: Option<string>): (c: string)
    ensures status == Some("IN_PROGRESS") ==> c == "processing"
    ensures status == Some("REVIEW") ==> c == "warning"
    ensures status == Some("DONE") ==> c == "success"
    ensures status == Some("BLOCKED") ==> c == "error"
    ensures !(status.Some? && status.value in {"IN_PROGRESS", "REVIEW", "DONE", "BLOCKED"}) ==> c == "default"
  {
    match status
    case None => "default"
    case Some(s) =>
      if s == "IN_PROGRESS" then "processing"
      else if s == "REVIEW" then "warning"
      else if s == "DONE" then "success"
      else if s == "BLOCKED" then "error"
      else "default"
  }

  /** The lookups are case-sensitive: a lower-case key is not a key. */
  lemma LookupsAreExact()
    ensures PriorityColor(Some("high")) == "default"
    ensures StatusColor(Some("done")) == "default"
    ensures PlanColor(Some("pro")) == "default"
  {
    assert "high" !in {"LOW", "MEDIUM", "HIGH", "URGENT", "CRITICAL"} by {
      assert "high"[0] != "HIGH"[0];
    }
    assert "done" !in {"IN_PROGRESS", "REVIEW", "DONE", "BLOCKED"} by {
      assert "done"[0] != "DONE"[0];
    }
    assert "pro" != "PRO" by {
      assert "pro"[0] != "PRO"[0];
    }
  }

  // ---------------------------------------------------------------------
  // DashboardStats

  /** The fields of `userData` the statistics read: `project_size` and the
      nested `subscription.plan_type`. */
  datatype UserData = UserData(fullName: Option<string>, name: Option<string>, projectSize: Option<int>,
                               subscriptionPlan: Option<string>)

  /** `userData` as the dashboard receives it: the JSON of models/user.go,
      which has `full_name` and `project_size` but no `name` and no
      `subscription` key. */
  function UserJson(u: User): (d: UserData)
    ensures d.fullName == Some(u.fullName) && d.projectSize == Some(u.projectSize)
    ensures d.name.None? && d.subscriptionPlan.None?
  {
    UserData(Some(u.fullName), None, Some(u.projectSize), None)
  }

  /** The four statistics cards. */
  datatype StatsView = StatsView(projects: int, limit: Limit, tasks: int, completed: int,
                                 completedOf: int, team: int)

  /** DashboardStats as written: the limit comes from
      `userData.subscription.plan_type`. */
  function DashboardStats(userData: UserData, totalIssues: int, completedIssues: int, teamMembers: int): (v: StatsView)
    ensures v.projects == OrZero(userData.projectSize)
    ensures v.limit == PlanLimit(userData.subscriptionPlan)
    ensures v.tasks == totalIssues && v.completed == completedIssues && v.completedOf == totalIssues
    ensures v.team == teamMembers
  {
    StatsView(OrZero(userData.projectSize), PlanLimit(userData.subscriptionPlan),
              totalIssues, completedIssues, totalIssues, teamMembers)
  }

  /** DashboardStats reading the plan from the subscription object, as the
      subscription card does. */
  function DashboardStatsIntended(userData: UserData, subscriptionPlan: Option<string>,
                                  totalIssues: int, completedIssues: int, teamMembers: int): (v: StatsView)
    ensures v.projects == OrZero(userData.projectSize)
    ensures LimitText(v.limit) == ProjectLimitLabel(subscriptionPlan)
    ensures v.tasks == totalIssues && v.completed == completedIssues && v.completedOf == totalIssues
    ensures v.team == teamMembers
  {
    StatsView(OrZero(userData.projectSize), PlanLimit(subscriptionPlan),
              totalIssues, completedIssues, totalIssues, teamMembers)
  }

  /** As written, the statistics card shows no limit for every user the
      server sends, BASIC and PREMIUM subscribers included, while the
      subscription card shows 3 or 10. */
  lemma StatsLimitAlwaysUnlimited(u: User, plan: Option<string>, t: int, c: int, m: int)
    requires plan == Some("BASIC") || plan == Some("PREMIUM")
    ensures DashboardStats(UserJson(u), t, c, m).limit == Unlimited
    ensures LimitText(DashboardStats(UserJson(u), t, c, m).limit) != ProjectLimitLabel(plan)
  {
  }

  /** The intended statistics card agrees with the subscription card. */
  lemma IntendedLimitAgrees(u: User, plan: Option<string>, t: int, c: int, m: int)
    ensures LimitText(DashboardStatsIntended(UserJson(u), plan, t, c, m).limit) == ProjectLimitLabel(plan)
    ensures DashboardStatsIntended(UserJson(u), plan, t, c, m).projects == u.projectSize
  {
  }

  /** The figures the dashboard passes down, computed from the projects. */
  function DashboardFigures(userData: UserData, projects: seq<ProjectSummary>): (v: StatsView)
    ensures v.tasks == Sum(projects, TotalIssues) && v.completedOf == v.tasks
    ensures v.completed == Sum(projects, CompletedIssues) && v.team == Sum(projects, TeamSize)
  {
    DashboardStats(userData, Sum(projects, TotalIssues), Sum(projects, CompletedIssues), Sum(projects, TeamSize))
  }
}
