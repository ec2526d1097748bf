/**
 * A board's SLA timers (crates/api/src/board_automations.rs `put_sla_timers`, with the validation of
 * crates/db/src/models/board_sla_rule.rs): validate every row, then write them all and say what changed.
 */
module Sla {
  import opened Common

  const MAX_MINUTES := 43_200

  /** A stored timer. */
  datatype Rule = Rule(id: nat, status: string, nudge: int, escalate: int)

  /** A row of the request. */
  datatype Values = Values(nudge: Option<int>, escalate: Option<int>)

  /** A row with the status it is for, as the request's three fields give it. */
  datatype Update = Update(field: string, status: string, values: Values)

  datatype Request = Request(planned: Option<Values>, inProgress: Option<Values>, blocked: Option<Values>)

  datatype Audit =
    | Removed(status: string)
    | Changed(status: string, before: (int, int), after: (int, int))
    | Created(status: string, after: (int, int))

  predicate Blank(values: Values) {
    values.nudge.None? && values.escalate.None?
  }

  /** Rows the client left out are not updates at all. */
  function UpdatesOf(r: Request): seq<Update> {
    (if r.planned.Some? then [Update("planned", "planned", r.planned.value)] else []) +
    (if r.inProgress.Some? then [Update("inProgress", "in_progress", r.inProgress.value)] else []) +
    (if r.blocked.Some? then [Update("blocked", "blocked", r.blocked.value)] else [])
  }

  ghost predicate DistinctStatuses(updates: seq<Update>) {
    forall i, j | 0 <= i < j < |updates| :: updates[i].status != updates[j].status && updates[i].field != updates[j].field
  }

  lemma RequestIsDistinct(r: Request)
    ensures DistinctStatuses(UpdatesOf(r))
  {
  }

  // ---------------------------------------------------------------------------------------------
  // Validation
  // ---------------------------------------------------------------------------------------------

  function ThresholdErrors(field: string, value: Option<int>): seq<string> {
    if value.None? then [field + " can't be blank", field + " is not a number"]
    else if value.value <= 0 then [field + " must be greater than 0"]
    else if value.value > MAX_MINUTES then [field + " must be less than or equal to 43200"]
    else []
  }

  /** `BoardSlaRule::validate` of a row, next to the rules of the board. */
  function Validate(rules: seq<Rule>, status: string, values: Values, own: Option<nat>): seq<string> {
    (if exists rule | rule in rules :: rule.status == status && Some(rule.id) != own then ["Work status has already been taken"] else []) +
    ThresholdErrors("Nudge after minutes", values.nudge) +
    ThresholdErrors("Escalate after minutes", values.escalate) +
    (if values.nudge.Some? && values.escalate.Some? && values.escalate.value <= values.nudge.value
     then ["Escalate after minutes must be after the nudge threshold"] else [])
  }

  /** A row passes exactly when both thresholds are there, in range and in order, and no other rule has
      its status; so a half-filled row never does. */
  lemma ValidatePasses(rules: seq<Rule>, status: string, values: Values, own: Option<nat>)
    ensures Validate(rules, status, values, own) == [] <==>
              && values.nudge.Some? && values.escalate.Some?
              && 0 < values.nudge.value < values.escalate.value <= 43_200
              && forall rule | rule in rules && rule.status == status :: Some(rule.id) == own
  {
  }

  function Find(rules: seq<Rule>, status: string): (r: Option<Rule>)
    ensures r.Some? ==> r.value in rules && r.value.status == status
    ensures r.None? ==> forall rule | rule in rules :: rule.status != status
  {
    if rules == [] then None else if rules[0].status == status then Some(rules[0]) else Find(rules[1..], status)
  }

  function OwnId(rules: seq<Rule>, status: string): Option<nat> {
    var rule := Find(rules, status);
    if rule.Some? then Some(rule.value.id) else None
  }

  function Errors(rules: seq<Rule>, u: Update): seq<string> {
    if Blank(u.values) then [] else Validate(rules, u.status, u.values, OwnId(rules, u.status))
  }

  // ---------------------------------------------------------------------------------------------
  // What an update means
  // ---------------------------------------------------------------------------------------------

  type Timers = map<string, (int, int)>

  /** One rule per status, and every id used once. */
  ghost predicate Consistent(rules: seq<Rule>, nextId: nat) {
    && (forall i, j | 0 <= i < j < |rules| :: rules[i].status != rules[j].status && rules[i].id != rules[j].id)
    && forall rule | rule in rules :: rule.id < nextId
  }

  ghost function Statuses(rules: seq<Rule>): set<string> {
    set rule | rule in rules :: rule.status
  }

  function TimerOf(rule: Rule): (int, int) {
    (rule.nudge, rule.escalate)
  }

  /** The timers a board's rules amount to. */
  ghost function View(rules: seq<Rule>): Timers {
    map status | status in Statuses(rules) && Find(rules, status).Some? :: TimerOf(Find(rules, status).value)
  }

  predicate Complete(u: Update) {
    u.values.nudge.Some? && u.values.escalate.Some?
  }

  /** A blank row takes its status's timer away, a complete one sets it. */
  function ApplyOne(m: Timers, u: Update): Timers {
    if Blank(u.values) then m - {u.status}
    else if Complete(u) then m[u.status := (u.values.nudge.value, u.values.escalate.value)]
    else m
  }

  function ApplyAll(m: Timers, updates: seq<Update>): Timers {
    if updates == [] then m else ApplyOne(ApplyAll(m, updates[..|updates| - 1]), updates[|updates| - 1])
  }

  function AuditOf(m: Timers, u: Update): Option<Audit> {
    if Blank(u.values) then
      if u.status in m then Some(Removed(u.status)) else None
    else if Complete(u) then
      var after := (u.values.nudge.value, u.values.escalate.value);
      if u.status !in m then Some(Created(u.status, after))
      else if m[u.status] == after then None
      else Some(Changed(u.status, m[u.status], after))
    else None
  }

  function AuditsOf(m: Timers, updates: seq<Update>): seq<Audit> {
    if updates == [] then []
    else
      var last := AuditOf(m, updates[|updates| - 1]);
      AuditsOf(m, updates[..|updates| - 1]) + if last.Some? then [last.value] else []
  }

  /** What an audit says happened, done again. */
  function ReplayOne(m: Timers, audit: Audit): Timers {
    match audit
    case Removed(status) => m - {status}
    case Changed(status, _, after) => m[status := after]
    case Created(status, after) => m[status := after]
  }

  function Replay(m: Timers, audits: seq<Audit>): Timers {
    if audits == [] then m else ReplayOne(Replay(m, audits[..|audits| - 1]), audits[|audits| - 1])
  }

  // ---------------------------------------------------------------------------------------------
  // The table
  // ---------------------------------------------------------------------------------------------

  lemma {:induction false} FindIs(rules: seq<Rule>, nextId: nat, rule: Rule)
    requires Consistent(rules, nextId) && rule in rules
    ensures Find(rules, rule.status) == Some(rule)
  {
    if rules[0] != rule {
      var i :| 0 < i < |rules| && rules[i] == rule;
      var rest := rules[1..];
      assert rest[i - 1] == rule;
      assert forall j, k | 0 <= j < k < |rest| :: rest[j] == rules[j + 1] && rest[k] == rules[k + 1];
      FindIs(rest, nextId, rule);
    }
  }

  /** A consistent table is read off rule by rule. */
  lemma ViewIs(rules: seq<Rule>, nextId: nat, m: Timers)
    requires Consistent(rules, nextId)
    requires forall rule | rule in rules :: rule.status in m && m[rule.status] == TimerOf(rule)
    requires forall status | status in m :: exists rule | rule in rules :: rule.status == status
    ensures View(rules) == m
  {
    forall status | status in m ensures status in View(rules) && View(rules)[status] == m[status] {
      var rule :| rule in rules && rule.status == status;
      FindIs(rules, nextId, rule);
    }
  }

  lemma ViewOf(rules: seq<Rule>, nextId: nat, rule: Rule)
    requires Consistent(rules, nextId) && rule in rules
    ensures rule.status in View(rules) && View(rules)[rule.status] == TimerOf(rule)
  {
    FindIs(rules, nextId, rule);
  }

  lemma NoView(rules: seq<Rule>, status: string)
    ensures Find(rules, status).None? ==> status !in View(rules)
  {
    hide Find;
  }

  function Destroyed(rules: seq<Rule>, id: nat): seq<Rule> {
    Filter(rules, (rule: Rule) => rule.id != id)
  }

  lemma OthersStay(rules: seq<Rule>, nextId: nat, prior: Rule)
    requires Consistent(rules, nextId) && prior in rules
    ensures forall rule: Rule | rule.status != prior.status :: rule in Destroyed(rules, prior.id) <==> rule in rules
  {
    hide Filter;
  }

  lemma FilterConsistent(rules: seq<Rule>, nextId: nat, keep: Rule -> bool)
    requires Consistent(rules, nextId)
    ensures Consistent(Filter(rules, keep), nextId)
  {
    FilterPairwise(rules, keep, (a: Rule, b: Rule) => a.status != b.status && a.id != b.id);
  }

  lemma DestroyView(rules: seq<Rule>, nextId: nat, prior: Rule)
    requires Consistent(rules, nextId) && prior in rules
    ensures Consistent(Destroyed(rules, prior.id), nextId)
    ensures View(Destroyed(rules, prior.id)) == View(rules) - {prior.status}
  {
    hide Filter, Find;
    FilterConsistent(rules, nextId, (rule: Rule) => rule.id != prior.id);
    var left, m := Destroyed(rules, prior.id), View(rules) - {prior.status};
    forall rule | rule in left ensures rule.status in m && m[rule.status] == TimerOf(rule) {
      ViewOf(rules, nextId, rule);
      SameStatusSameRule(rules, nextId, rule, prior);
    }
    forall status | status in m ensures exists rule | rule in left :: rule.status == status {
      var rule :| rule in rules && rule.status == status;
      SameStatusSameRule(rules, nextId, rule, prior);
      assert rule in left;
    }
    ViewIs(left, nextId, m);
  }

  lemma SameStatusSameRule(rules: seq<Rule>, nextId: nat, a: Rule, b: Rule)
    requires Consistent(rules, nextId) && a in rules && b in rules
    ensures a.status == b.status <==> a == b
    ensures a.id == b.id <==> a == b
  {
    var i :| 0 <= i < |rules| && rules[i] == a;
    var j :| 0 <= j < |rules| && rules[j] == b;
  }

  function Changing(rules: seq<Rule>, id: nat, nudge: int, escalate: int): (r: seq<Rule>)
    ensures |r| == |rules|
    ensures forall i | 0 <= i < |rules| :: r[i] == if rules[i].id == id then rules[i].(nudge := nudge, escalate := escalate) else rules[i]
  {
    seq(|rules|, (i: nat) requires i < |rules| => if rules[i].id == id then rules[i].(nudge := nudge, escalate := escalate) else rules[i])
  }

  lemma OthersUnchanged(rules: seq<Rule>, nextId: nat, prior: Rule, nudge: int, escalate: int)
    requires Consistent(rules, nextId) && prior in rules
    ensures forall rule: Rule | rule.status != prior.status :: rule in Changing(rules, prior.id, nudge, escalate) <==> rule in rules
  {
    var after := Changing(rules, prior.id, nudge, escalate);
    forall rule | rule in rules && rule.status != prior.status ensures rule in after {
      var i :| 0 <= i < |rules| && rules[i] == rule;
      assert after[i] == rule;
    }
    forall rule | rule in after && rule.status != prior.status ensures rule in rules {
      var i :| 0 <= i < |after| && after[i] == rule;
      assert rules[i] in rules;
    }
  }

  lemma ChangeConsistent(rules: seq<Rule>, nextId: nat, id: nat, nudge: int, escalate: int)
    requires Consistent(rules, nextId)
    ensures Consistent(Changing(rules, id, nudge, escalate), nextId)
  {
    forall i | 0 <= i < |rules| ensures rules[i] in rules {
    }
  }

  /** The rule behind a status of the view. */
  ghost function ViewHas(rules: seq<Rule>, status: string): (rule: Rule)
    requires status in View(rules)
    ensures rule in rules && rule.status == status
  {
    var rule :| rule in rules && rule.status == status; rule
  }

  lemma ChangeView(rules: seq<Rule>, nextId: nat, prior: Rule, nudge: int, escalate: int)
    requires Consistent(rules, nextId) && prior in rules
    ensures Consistent(Changing(rules, prior.id, nudge, escalate), nextId)
    ensures View(Changing(rules, prior.id, nudge, escalate)) == View(rules)[prior.status := (nudge, escalate)]
  {
    hide Find, View, Consistent;
    var after, m := Changing(rules, prior.id, nudge, escalate), View(rules)[prior.status := (nudge, escalate)];
    ChangeConsistent(rules, nextId, prior.id, nudge, escalate);
    forall i | 0 <= i < |rules| ensures rules[i] in rules {
    }
    forall rule | rule in after ensures rule.status in m && m[rule.status] == TimerOf(rule) {
      var i :| 0 <= i < |after| && after[i] == rule;
      ViewOf(rules, nextId, rules[i]);
      SameStatusSameRule(rules, nextId, rules[i], prior);
    }
    forall status | status in m ensures exists rule | rule in after :: rule.status == status {
      var rule := if status == prior.status then prior else ViewHas(rules, status);
      var i :| 0 <= i < |rules| && rules[i] == rule;
      assert after[i] in after && after[i].status == status;
    }
    ViewIs(after, nextId, m);
  }

  lemma CreateView(rules: seq<Rule>, nextId: nat, rule: Rule)
    requires Consistent(rules, nextId) && rule.id == nextId && forall old' | old' in rules :: old'.status != rule.status
    ensures Consistent(rules + [rule], nextId + 1)
    ensures View(rules + [rule]) == View(rules)[rule.status := TimerOf(rule)]
  {
    hide Find;
    var after, m := rules + [rule], View(rules)[rule.status := TimerOf(rule)];
    forall i | 0 <= i < |rules| ensures rules[i] in rules {
    }
    assert Consistent(after, nextId + 1);
    forall r | r in after ensures r.status in m && m[r.status] == TimerOf(r) {
      if r in rules { ViewOf(rules, nextId, r); }
    }
    forall status | status in m ensures exists r | r in after :: r.status == status {
      if status == rule.status {
        assert rule in after;
      } else {
        var r :| r in rules && r.status == status;
        assert r in after;
      }
    }
    ViewIs(after, nextId + 1, m);
  }

  // ---------------------------------------------------------------------------------------------
  // The request
  // ---------------------------------------------------------------------------------------------

  /** Which fields a request is refused for, and why. */
  function FieldErrors(rules: seq<Rule>, updates: seq<Update>): map<string, seq<string>> {
    if updates == [] then map[]
    else
      var before, u := FieldErrors(rules, updates[..|updates| - 1]), updates[|updates| - 1];
      if Errors(rules, u) == [] then before else before[u.field := Errors(rules, u)]
  }

  ghost predicate AllPass(rules: seq<Rule>, updates: seq<Update>) {
    forall u | u in updates :: Errors(rules, u) == []
  }

  lemma {:induction false} FieldErrorsExactly(rules: seq<Rule>, updates: seq<Update>)
    ensures FieldErrors(rules, updates) == map[] <==> AllPass(rules, updates)
    ensures forall field | field in FieldErrors(rules, updates) ::
              exists u | u in updates :: u.field == field && FieldErrors(rules, updates)[field] == Errors(rules, u) != []
  {
    hide Errors;
    if updates != [] {
      var front, last := updates[..|updates| - 1], updates[|updates| - 1];
      FieldErrorsExactly(rules, front);
      assert updates == front + [last];
      assert last in updates && forall u | u in front :: u in updates;
      if Errors(rules, last) != [] {
        assert last.field in FieldErrors(rules, updates);
      }
    }
  }

  lemma FindKept(before: seq<Rule>, after: seq<Rule>, m: nat, n: nat, status: string)
    requires Consistent(before, m) && Consistent(after, n)
    requires forall rule: Rule | rule.status == status :: rule in before <==> rule in after
    ensures Find(after, status) == Find(before, status)
  {
    var rule := Find(before, status);
    if rule.Some? {
      FindIs(after, n, rule.value);
    }
  }

  // ---------------------------------------------------------------------------------------------
  // In the request's own fields
  // ---------------------------------------------------------------------------------------------

  /** A row that is given and not blank, and not two minutes in range and in order. */
  predicate RowFails(row: Option<Values>) {
    row.Some? && (row.value.nudge.Some? || row.value.escalate.Some?)
    && !(row.value.nudge.Some? && row.value.escalate.Some? && 0 < row.value.nudge.value < row.value.escalate.value <= 43_200)
  }

  /** A status whose row is absent keeps its timer, one whose row is blank has none, and one whose row is
      given has its two values. */
  predicate RowDone(before: Timers, after: Timers, status: string, row: Option<Values>) {
    if row.None? then (status in after <==> status in before) && (status in before ==> after[status] == before[status])
    else if row.value.nudge.None? && row.value.escalate.None? then status !in after
    else row.value.nudge.Some? && row.value.escalate.Some? && status in after && after[status] == (row.value.nudge.value, row.value.escalate.value)
  }

  ghost predicate RequestDone(before: Timers, after: Timers, r: Request) {
    && RowDone(before, after, "planned", r.planned)
    && RowDone(before, after, "in_progress", r.inProgress)
    && RowDone(before, after, "blocked", r.blocked)
    && forall status | status != "planned" && status != "in_progress" && status != "blocked" :: RowDone(before, after, status, None)
  }

  lemma StatusesDiffer()
    ensures "planned" != "in_progress" && "planned" != "blocked" && "in_progress" != "blocked"
    ensures "planned" != "inProgress" && "inProgress" != "blocked"
  {
    assert "planned"[0] == 'p' && "in_progress"[0] == 'i' && "inProgress"[0] == 'i' && "blocked"[0] == 'b';
  }

  /** Where a row of the request stands among the updates. */
  lemma RowAt(r: Request)
    ensures var updates := UpdatesOf(r);
            && (forall u | u in updates ::
                  || (r.planned == Some(u.values) && u.status == "planned" && u.field == "planned")
                  || (r.inProgress == Some(u.values) && u.status == "in_progress" && u.field == "inProgress")
                  || (r.blocked == Some(u.values) && u.status == "blocked" && u.field == "blocked"))
            && (r.planned.Some? ==> Update("planned", "planned", r.planned.value) in updates)
            && (r.inProgress.Some? ==> Update("inProgress", "in_progress", r.inProgress.value) in updates)
            && (r.blocked.Some? ==> Update("blocked", "blocked", r.blocked.value) in updates)
  {
  }

  lemma OneRow(m: Timers, updates: seq<Update>, field: string, status: string, row: Option<Values>)
    requires DistinctStatuses(updates) && AllFilled(updates)
    requires row.Some? ==> Update(field, status, row.value) in updates
    requires row.None? ==> forall u | u in updates :: u.status != status
    ensures RowDone(m, ApplyAll(m, updates), status, row)
  {
    hide ApplyAll, DistinctStatuses;
    if row.None? {
      Untouched(m, updates, status);
    } else {
      var u := Update(field, status, row.value);
      var i :| 0 <= i < |updates| && updates[i] == u;
      RowTakesEffect(m, updates, i);
    }
  }

  /** An accepted request does to every status what its own row says, and nothing to any other. */
  lemma RequestTakesEffect(m: Timers, r: Request)
    ensures AllFilled(UpdatesOf(r)) ==> RequestDone(m, ApplyAll(m, UpdatesOf(r)), r)
  {
    hide ApplyAll, UpdatesOf, RowDone, DistinctStatuses;
    var updates := UpdatesOf(r);
    if AllFilled(updates) {
      RequestIsDistinct(r);
      RowAt(r);
      StatusesDiffer();
      OneRow(m, updates, "planned", "planned", r.planned);
      OneRow(m, updates, "inProgress", "in_progress", r.inProgress);
      OneRow(m, updates, "blocked", "blocked", r.blocked);
      forall status | status != "planned" && status != "in_progress" && status != "blocked"
        ensures RowDone(m, ApplyAll(m, updates), status, None)
      {
        OneRow(m, updates, "", status, None);
      }
    }
  }

  lemma FailsExactly(rules: seq<Rule>, nextId: nat, u: Update)
    requires Consistent(rules, nextId)
    ensures Errors(rules, u) != [] <==> RowFails(Some(u.values))
  {
    PassesAnywhere(rules, nextId, u);
  }

  lemma {:induction false} ErrorKeys(rules: seq<Rule>, updates: seq<Update>, field: string)
    ensures field in FieldErrors(rules, updates) <==> exists u | u in updates :: u.field == field && Errors(rules, u) != []
  {
    hide Errors;
    if updates != [] {
      var front, last := updates[..|updates| - 1], updates[|updates| - 1];
      assert updates == front + [last];
      ErrorKeys(rules, front, field);
    }
  }

  /** Errors stand under the names of exactly the rows that fail, and there are none exactly when all pass. */
  lemma RequestErrors(rules: seq<Rule>, nextId: nat, r: Request)
    requires Consistent(rules, nextId)
    ensures AllPass(rules, UpdatesOf(r)) <==> !RowFails(r.planned) && !RowFails(r.inProgress) && !RowFails(r.blocked)
    ensures forall field :: field in FieldErrors(rules, UpdatesOf(r)) <==>
              || (field == "planned" && RowFails(r.planned))
              || (field == "inProgress" && RowFails(r.inProgress))
              || (field == "blocked" && RowFails(r.blocked))
  {
    hide UpdatesOf, Errors, FieldErrors, Consistent;
    var updates := UpdatesOf(r);
    RowAt(r);
    StatusesDiffer();
    forall u | u in updates ensures Errors(rules, u) != [] <==> RowFails(Some(u.values)) {
      FailsExactly(rules, nextId, u);
    }
    NoRowPasses();
    forall field
      ensures field in FieldErrors(rules, updates) <==>
                || (field == "planned" && RowFails(r.planned))
                || (field == "inProgress" && RowFails(r.inProgress))
                || (field == "blocked" && RowFails(r.blocked))
    {
      ErrorKeys(rules, updates, field);
    }
  }

  lemma NoRowPasses()
    ensures !RowFails(None)
  {
  }

  lemma PassingRows(rules: seq<Rule>, updates: seq<Update>)
    ensures AllPass(rules, updates) ==> AllFilled(updates)
  {
    if AllPass(rules, updates) {
      forall u | u in updates ensures Blank(u.values) || Complete(u) {
        PassingRow(rules, u);
      }
    }
  }

  /** The audits are true: each tells a change that was made, with what was there before and what is there
      now, and every change is told. */
  lemma {:induction false} AuditsAreTrue(m: Timers, updates: seq<Update>)
    requires DistinctStatuses(updates) && AllFilled(updates)
    ensures var after := ApplyAll(m, updates);
            forall audit | audit in AuditsOf(m, updates) :: Tells(m, after, audit)
    ensures var after := ApplyAll(m, updates);
            forall status | (status in m) != (status in after) || (status in m && m[status] != after[status]) ::
              exists audit | audit in AuditsOf(m, updates) :: audit.status == status
  {
    if updates != [] {
      FrontOf(updates);
      var front, last := updates[..|updates| - 1], updates[|updates| - 1];
      AuditsAreTrue(m, front);
      Untouched(m, front, last.status);
      var mid, after := ApplyAll(m, front), ApplyAll(m, updates);
      forall audit | audit in AuditsOf(m, front) ensures audit.status != last.status {
        AuditedStatus(m, front, audit);
      }
      forall status | status != last.status ensures (status in mid <==> status in after) && (status in mid ==> after[status] == mid[status]) {
      }
    }
  }

  predicate Tells(m: Timers, after: Timers, audit: Audit) {
    match audit
    case Removed(status) => status in m && status !in after
    case Changed(status, was, now) => status in m && status in after && m[status] == was && after[status] == now && was != now
    case Created(status, now) => status !in m && status in after && after[status] == now
  }

  lemma {:induction false} AuditedStatus(m: Timers, updates: seq<Update>, audit: Audit)
    requires audit in AuditsOf(m, updates)
    ensures exists u | u in updates :: u.status == audit.status
  {
    var front, last := updates[..|updates| - 1], updates[|updates| - 1];
    assert updates == front + [last];
    if audit in AuditsOf(m, front) { AuditedStatus(m, front, audit); }
  }

  class Board {
    var rules: seq<Rule>
    var nextId: nat

    ghost predicate Valid()
      reads this
    {
      Consistent(rules, nextId)
    }

    /** `write_sla_rule`, for a row that was found valid, with the rule its status had before. */
    method WriteRule(u: Update, prior: Option<Rule>) returns (audit: Option<Audit>)
      requires Valid() && (Blank(u.values) || Complete(u))
      requires prior == Find(rules, u.status)
      modifies this
      ensures Valid()
      ensures View(rules) == ApplyOne(old(View(rules)), u)
      ensures audit == AuditOf(old(View(rules)), u)
      ensures audit.None? ==> rules == old(rules) && nextId == old(nextId)
      ensures forall rule: Rule | rule.status != u.status :: rule in rules <==> rule in old(rules)
    {
      ghost var m := View(rules);
      NoView(rules, u.status);
      hide Find, Filter, View, Consistent;
      if prior.Some? {
        ViewOf(rules, nextId, prior.value);
      }
      if Blank(u.values) {
        if prior.None? {
          assert m - {u.status} == m;
          return None;
        }
        DestroyView(rules, nextId, prior.value);
        OthersStay(rules, nextId, prior.value);
        rules := Destroyed(rules, prior.value.id);
        return Some(Removed(u.status));
      }
      var nudge, escalate := u.values.nudge.value, u.values.escalate.value;
      if prior.Some? {
        if prior.value.nudge == nudge && prior.value.escalate == escalate {
          assert m[u.status := (nudge, escalate)] == m;
          return None;
        }
        ChangeView(rules, nextId, prior.value, nudge, escalate);
        OthersUnchanged(rules, nextId, prior.value, nudge, escalate);
        rules := Changing(rules, prior.value.id, nudge, escalate);
        return Some(Changed(u.status, TimerOf(prior.value), (nudge, escalate)));
      }
      CreateView(rules, nextId, Rule(nextId, u.status, nudge, escalate));
      rules, nextId := rules + [Rule(nextId, u.status, nudge, escalate)], nextId + 1;
      audit := Some(Created(u.status, (nudge, escalate)));
    }
  
    /** `put_sla_timers`: nothing is written unless every row passes. */
    method PutTimers(request: Request) returns (r: Result<seq<Audit>, map<string, seq<string>>>)
      requires Valid()
      modifies this
      ensures Valid()
      ensures r.Ok? <==> !RowFails(request.planned) && !RowFails(request.inProgress) && !RowFails(request.blocked)
      ensures r.Err? ==> forall field :: field in r.error <==>
                || (field == "planned" && RowFails(request.planned))
                || (field == "inProgress" && RowFails(request.inProgress))
                || (field == "blocked" && RowFails(request.blocked))
      ensures r.Ok? ==> RequestDone(old(View(rules)), View(rules), request)
      ensures r.Ok? <==> AllPass(old(rules), UpdatesOf(request))
      ensures r.Err? ==> rules == old(rules) && nextId == old(nextId) && r.error == FieldErrors(rules, UpdatesOf(request))
      ensures r.Ok? ==>
                && View(rules) == ApplyAll(old(View(rules)), UpdatesOf(request))
                && r.value == AuditsOf(old(View(rules)), UpdatesOf(request))
                && (r.value == [] ==> rules == old(rules))
    {
      hide UpdatesOf, View, Consistent, Find, Validate, ApplyAll, AuditsOf, AllPass, FieldErrors, RowFails, RequestDone;
      var existing, updates := rules, UpdatesOf(request);
      RequestIsDistinct(request);
      FieldErrorsExactly(existing, updates);
      RequestErrors(existing, nextId, request);
      RequestTakesEffect(View(rules), request);
      PassingRows(existing, updates);
      var fields := CheckAll(updates);
      if fields != map[] {
        return Err(fields);
      }
      var audits := WriteAll(updates);
      r := Ok(audits);
    }

    /** The first loop: every row that is not blank is validated against the rules as they are. */
    method CheckAll(updates: seq<Update>) returns (fields: map<string, seq<string>>)
      ensures fields == FieldErrors(rules, updates)
    {
      hide Validate, Find;
      fields := map[];
      for i := 0 to |updates|
        invariant fields == FieldErrors(rules, updates[..i])
      {
        assert updates[..i + 1][..i] == updates[..i];
        var u := updates[i];
        if !Blank(u.values) {
          var errors := Validate(rules, u.status, u.values, OwnId(rules, u.status));
          if |errors| > 0 {
            fields := fields[u.field := errors];
          }
        }
      }
      assert updates[..|updates|] == updates;
    }

    /** The second loop: every row is written, each against the rules as they were at the start. */
    method WriteAll(updates: seq<Update>) returns (audits: seq<Audit>)
      requires Valid() && DistinctStatuses(updates) && AllPass(rules, updates)
      modifies this
      ensures Valid()
      ensures View(rules) == ApplyAll(old(View(rules)), updates)
      ensures audits == AuditsOf(old(View(rules)), updates)
      ensures audits == [] ==> rules == old(rules)
    {
      hide Find, View, Errors, Consistent;
      var existing := rules;
      ghost var m, firstId := View(rules), nextId;
      audits := [];
      for i := 0 to |updates|
        invariant Valid() && View(rules) == ApplyAll(m, updates[..i]) && audits == AuditsOf(m, updates[..i])
        invariant forall rule: Rule | (forall j | 0 <= j < i :: updates[j].status != rule.status) :: rule in rules <==> rule in existing
        invariant audits == [] ==> rules == existing
      {
        assert updates[..i + 1][..i] == updates[..i];
        var u := updates[i];
        assert u in updates;
        PassingRow(existing, u);
        FindKept(existing, rules, firstId, nextId, u.status);
        Untouched(m, updates[..i], u.status);
        SameAudit(m, View(rules), u);
        var audit := WriteRule(u, Find(existing, u.status));
        if audit.Some? {
          audits := audits + [audit.value];
        }
      }
      assert updates[..|updates|] == updates;
    }
  }

  lemma PassingRow(rules: seq<Rule>, u: Update)
    requires Errors(rules, u) == []
    ensures Blank(u.values) || Complete(u)
  {
    ValidatePasses(rules, u.status, u.values, OwnId(rules, u.status));
  }

  lemma SameAudit(m: Timers, n: Timers, u: Update)
    requires (u.status in m <==> u.status in n) && (u.status in m ==> m[u.status] == n[u.status])
    ensures AuditOf(m, u) == AuditOf(n, u)
  {
  }

  // ---------------------------------------------------------------------------------------------
  // What follows
  // ---------------------------------------------------------------------------------------------

  /** A status that no row names keeps its timer. */
  lemma {:induction false} Untouched(m: Timers, updates: seq<Update>, status: string)
    requires forall u | u in updates :: u.status != status
    ensures status in ApplyAll(m, updates) <==> status in m
    ensures status in m ==> ApplyAll(m, updates)[status] == m[status]
  {
    if updates != [] {
      assert updates[|updates| - 1] in updates;
      Untouched(m, updates[..|updates| - 1], status);
    }
  }

  /** Every row takes effect: a blank one leaves its status without a timer, a complete one sets it. */
  lemma {:induction false} RowTakesEffect(m: Timers, updates: seq<Update>, i: nat)
    requires DistinctStatuses(updates) && i < |updates| && (Blank(updates[i].values) || Complete(updates[i]))
    ensures var u, after := updates[i], ApplyAll(m, updates);
            && (Blank(u.values) ==> u.status !in after)
            && (!Blank(u.values) ==> u.status in after && after[u.status] == (u.values.nudge.value, u.values.escalate.value))
  {
    if i < |updates| - 1 {
      RowTakesEffect(m, updates[..|updates| - 1], i);
    }
  }

  ghost predicate AllFilled(updates: seq<Update>) {
    forall u | u in updates :: Blank(u.values) || Complete(u)
  }

  lemma FrontOf(updates: seq<Update>)
    requires updates != [] && DistinctStatuses(updates) && AllFilled(updates)
    ensures var front, last := updates[..|updates| - 1], updates[|updates| - 1];
            && DistinctStatuses(front) && AllFilled(front) && (Blank(last.values) || Complete(last))
            && forall u | u in front :: u.status != last.status
  {
    assert updates[|updates| - 1] in updates;
    forall u | u in updates[..|updates| - 1] ensures u in updates && u.status != updates[|updates| - 1].status {
      var i :| 0 <= i < |updates| - 1 && updates[i] == u;
    }
  }

  lemma RowReplays(m: Timers, before: Timers, u: Update)
    requires (u.status in m <==> u.status in before) && (u.status in m ==> m[u.status] == before[u.status])
    requires Blank(u.values) || Complete(u)
    ensures var audit := AuditOf(m, u);
            ApplyOne(before, u) == if audit.Some? then ReplayOne(before, audit.value) else before
  {
    if AuditOf(m, u).None? {
      assert ApplyOne(before, u) == before;
    }
  }

  /** The audits tell the whole story: replayed on the old timers they give the new ones. */
  lemma {:induction false} AuditsReplay(m: Timers, updates: seq<Update>)
    requires DistinctStatuses(updates) && AllFilled(updates)
    ensures Replay(m, AuditsOf(m, updates)) == ApplyAll(m, updates)
  {
    if updates != [] {
      FrontOf(updates);
      var front, last := updates[..|updates| - 1], updates[|updates| - 1];
      AuditsReplay(m, front);
      Untouched(m, front, last.status);
      var audits := AuditsOf(m, front);
      RowReplays(m, ApplyAll(m, front), last);
      hide ApplyOne, ReplayOne, AuditOf;
      if AuditOf(m, last).Some? {
        assert AuditsOf(m, updates)[..|audits|] == audits;
      } else {
        assert audits + [] == audits;
      }
    }
  }

  /** There is something to audit exactly when some timer changed. */
  lemma {:induction false} AuditsMeanChange(m: Timers, updates: seq<Update>)
    requires DistinctStatuses(updates) && AllFilled(updates)
    ensures AuditsOf(m, updates) == [] <==> ApplyAll(m, updates) == m
  {
    if AuditsOf(m, updates) == [] {
      AuditsReplay(m, updates);
    } else {
      var i := FirstAudited(m, updates);
      RowTakesEffect(m, updates, i);
    }
  }

  lemma {:induction false} FirstAudited(m: Timers, updates: seq<Update>) returns (i: nat)
    requires DistinctStatuses(updates) && AllFilled(updates) && AuditsOf(m, updates) != []
    ensures i < |updates| && AuditOf(m, updates[i]).Some? && (Blank(updates[i].values) || Complete(updates[i]))
  {
    FrontOf(updates);
    if AuditOf(m, updates[|updates| - 1]).Some? {
      i := |updates| - 1;
    } else {
      i := FirstAudited(m, updates[..|updates| - 1]);
    }
  }

  /** Asking again for what is already so changes nothing and audits nothing. */
  lemma {:induction false} RepeatIsSilent(m: Timers, updates: seq<Update>)
    requires DistinctStatuses(updates) && AllFilled(updates)
    ensures AuditsOf(ApplyAll(m, updates), updates) == []
    ensures ApplyAll(ApplyAll(m, updates), updates) == ApplyAll(m, updates)
  {
    var after := ApplyAll(m, updates);
    if AuditsOf(after, updates) != [] {
      var i := FirstAudited(after, updates);
      RowTakesEffect(m, updates, i);
      assert false;
    }
    AuditsMeanChange(after, updates);
  }

  /** Whether a row passes does not depend on the rules, as long as there is one per status. */
  lemma PassesAnywhere(rules: seq<Rule>, nextId: nat, u: Update)
    requires Consistent(rules, nextId)
    ensures Errors(rules, u) == [] <==>
              Blank(u.values) || (Complete(u) && 0 < u.values.nudge.value < u.values.escalate.value <= MAX_MINUTES)
  {
    ValidatePasses(rules, u.status, u.values, OwnId(rules, u.status));
    forall rule | rule in rules && rule.status == u.status ensures Some(rule.id) == OwnId(rules, u.status) {
      FindIs(rules, nextId, rule);
    }
  }

  /** A request that was accepted is accepted again, and then has nothing to say. */
  lemma AcceptedTwice(rules: seq<Rule>, nextId: nat, after: seq<Rule>, afterId: nat, request: Request)
    requires Consistent(rules, nextId) && Consistent(after, afterId) && AllPass(rules, UpdatesOf(request))
    requires View(after) == ApplyAll(View(rules), UpdatesOf(request))
    ensures AllPass(after, UpdatesOf(request))
    ensures AuditsOf(View(after), UpdatesOf(request)) == []
    ensures ApplyAll(View(after), UpdatesOf(request)) == View(after)
    ensures Replay(View(rules), AuditsOf(View(rules), UpdatesOf(request))) == View(after)
  {
    hide View, Errors, UpdatesOf, Consistent;
    var updates := UpdatesOf(request);
    RequestIsDistinct(request);
    forall u | u in updates ensures Errors(after, u) == [] && (Blank(u.values) || Complete(u)) {
      PassesAnywhere(rules, nextId, u);
      PassesAnywhere(after, afterId, u);
    }
    RepeatIsSilent(View(rules), updates);
    AuditsReplay(View(rules), updates);
  }
}
