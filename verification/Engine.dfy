/**
 * The control-responsibility engine as a state machine on values.
 *
 * `Core` is everything the engine remembers about who drives which channel, plus the record on
 * disk. Each operation of the program is a function from a core, and from the choices of the
 * environment, to the next core and the writes it issued. `EngineMachine` proves that the
 * imperative engine computes these functions; `Responsibility` and its siblings prove what
 * they keep.
 */
module Engine {
  import opened Ids
  import opened Handovers

  const MAX_CONSECUTIVE_UNCONFIRMED: nat := 3

  // ------------------------------------------------------------------ rules

  datatype FailurePolicy = Hold | SafeDefault | Fixed | Release

  /**
   * A rule, as far as ownership is concerned. `source`, `condition` and `mapping` stand for the
   * parts of the rule whose only role here is to be equal or different after an edit.
   */
  datatype Rule = Rule(
    id: RuleId,
    priority: nat,
    enabled: bool,
    target: Channel,
    source: nat,
    condition: nat,
    mapping: nat,
    interval: nat,
    onWriteFailure: FailurePolicy)

  /** Evaluation order: higher priority first, then lower id. */
  predicate RuleLeq(a: Rule, b: Rule) {
    a.priority > b.priority || (a.priority == b.priority && IdLeq(a.id, b.id))
  }

  /** Stable insertion of a rule that came before every rule of `rules`. */
  function Insert(r: Rule, rules: seq<Rule>): seq<Rule> {
    if rules == [] || RuleLeq(r, rules[0]) then [r] + rules else [rules[0]] + Insert(r, rules[1..])
  }

  /** The stable sort by evaluation order. */
  function SortRules(rules: seq<Rule>): seq<Rule> {
    if rules == [] then [] else Insert(rules[0], SortRules(rules[1..]))
  }

  predicate HasRule(rules: seq<Rule>, id: RuleId) {
    exists i | 0 <= i < |rules| :: rules[i].id == id
  }

  /** Position of the first rule with that id, or the number of rules. */
  function FindRule(rules: seq<Rule>, id: RuleId): (i: nat)
    ensures i <= |rules|
    ensures i < |rules| ==> rules[i].id == id
    ensures forall j | 0 <= j < i :: rules[j].id != id
  {
    if rules == [] then 0 else if rules[0].id == id then 0 else 1 + FindRule(rules[1..], id)
  }

  /** Every rule but those with that id. */
  function WithoutRule(rules: seq<Rule>, id: RuleId): seq<Rule> {
    if rules == [] then [] else (if rules[0].id == id then [] else [rules[0]]) + WithoutRule(rules[1..], id)
  }

  /** Which enabled rule names this channel: its position, or the number of rules. */
  function Claimant(rules: seq<Rule>, c: Channel): (i: nat)
    ensures i <= |rules|
    ensures i < |rules| ==> rules[i].enabled && rules[i].target == c
    ensures forall j | 0 <= j < i :: !(rules[j].enabled && rules[j].target == c)
  {
    if rules == [] then 0
    else if rules[0].enabled && rules[0].target == c then 0
    else 1 + Claimant(rules[1..], c)
  }

  /** The enabled rule, other than the candidate itself, that already drives its target. */
  predicate Conflicts(rules: seq<Rule>, candidate: Rule) {
    exists i | 0 <= i < |rules| ::
      rules[i].enabled && rules[i].id != candidate.id && rules[i].target == candidate.target
  }

  /** Stand down every enabled rule whose target an earlier enabled rule owns. */
  function ResolveConflicts(rules: seq<Rule>): (r: seq<Rule>)
    ensures |r| == |rules|
  {
    if rules == [] then [] else
    var done := ResolveConflicts(rules[..|rules| - 1]);
    var last := rules[|rules| - 1];
    done + [if last.enabled && Claimant(done, last.target) < |done| then last.(enabled := false) else last]
  }

  // ------------------------------------------------------------------ control memory

  /** The channel a rule drove last, and the value the device confirmed for it, if it did. */
  datatype ControlHold = ControlHold(channel: Channel, confirmed: Option<real>, lastWriteMs: int)

  datatype RuleState = RuleState(control: Option<ControlHold>, unconfirmedRun: nat, nextDueMs: int)

  const FRESH: RuleState := RuleState(None, 0, 0)

  type States = map<RuleId, RuleState>

  function StateOf(states: States, id: RuleId): RuleState {
    if id in states then states[id] else FRESH
  }

  datatype StoredHold = StoredHold(ruleId: RuleId, channel: Channel, lastWriteMs: int)

  /** What is written to disk: unresolved handovers and issued-but-unconfirmed writes. */
  datatype Record = Record(handovers: Book, holds: seq<StoredHold>)

  datatype Core = Core(
    rules: seq<Rule>,
    states: States,
    book: Book,
    dirty: bool,
    disk: Record,
    recovered: bool,
    ticks: nat)

  /** A process that just started, finding `disk`. */
  function Fresh(disk: Record): Core {
    Core([], map[], [], false, disk, false, 0)
  }

  // ------------------------------------------------------------------ writes

  /** How one device write ended. `Applied` carries the value the device confirmed, if it gave one. */
  datatype WriteResult = Applied(value: Option<real>) | Unconfirmed | Rejected | Error

  datatype Event =
    | RuleWrite(rule: RuleId, channel: Channel, result: WriteResult)
    | FailSafeWrite(rule: RuleId, channel: Channel, result: WriteResult)
    | HandoverWrite(channel: Channel, result: WriteResult)

  predicate Confirms(e: Event) {
    e.HandoverWrite? && e.result.Applied? && e.result.value.Some?
  }

  // ------------------------------------------------------------------ the record on disk

  /** Writes that were issued and never confirmed, in the order the rules are listed. */
  function UnconfirmedHolds(rules: seq<Rule>, states: States): seq<StoredHold> {
    if rules == [] then [] else
    var control := StateOf(states, rules[0].id).control;
    (if control.Some? && control.value.confirmed.None?
     then [StoredHold(rules[0].id, control.value.channel, control.value.lastWriteMs)]
     else []) + UnconfirmedHolds(rules[1..], states)
  }

  function BuildRecord(c: Core): Record {
    Record(c.book, UnconfirmedHolds(c.rules, c.states))
  }

  /** Write the record; `saves` says whether the file could be written. */
  function Persist(c: Core, saves: bool): Core {
    if saves then c.(disk := BuildRecord(c), dirty := false) else c
  }

  function Flush(c: Core, saves: bool): Core {
    if c.dirty then Persist(c, saves) else c
  }

  // ------------------------------------------------------------------ leaving control

  datatype RuleChange = RuleChange(
    previousTarget: Option<Channel>,
    enabledChanged: bool,
    sourceChanged: bool,
    conditionChanged: bool,
    controlChanged: bool)
  {
    predicate LeavesControl() { previousTarget.Some? || enabledChanged }
    predicate IsSemantic() { LeavesControl() || sourceChanged || conditionChanged || controlChanged }
  }

  function Between(previous: Rule, next: Rule): RuleChange {
    RuleChange(
      if previous.target != next.target then Some(previous.target) else None,
      previous.enabled != next.enabled,
      previous.source != next.source,
      previous.condition != next.condition,
      previous.mapping != next.mapping)
  }

  /** Queue the channel a rule held, unless its configuration says it held another one. */
  function HandOver(c: Core, id: RuleId, held: Option<ControlHold>, previousTarget: Option<Channel>): Core {
    if held.Some? && (previousTarget.None? || previousTarget.value == held.value.channel)
    then c.(book := Queue(c.book, held.value.channel, id, c.ticks), dirty := true)
    else c
  }

  function Invalidated(s: RuleState, change: RuleChange): RuleState {
    RuleState(if change.LeavesControl() then None else s.control, s.unconfirmedRun, 0)
  }

  function ApplyRuleChange(c: Core, previous: Rule, change: RuleChange, saves: bool): Core {
    if !change.IsSemantic() then c else
    var c1 :=
      if change.LeavesControl()
      then Flush(HandOver(c, previous.id, StateOf(c.states, previous.id).control, change.previousTarget), saves)
      else c;
    if previous.id in c1.states
    then c1.(states := c1.states[previous.id := Invalidated(c1.states[previous.id], change)])
    else c1
  }

  // ------------------------------------------------------------------ loading rule files

  /** What each rule was driving before a reload. */
  function PreviousHolds(rules: seq<Rule>, states: States): seq<(RuleId, ControlHold)> {
    if rules == [] then [] else
    var control := StateOf(states, rules[0].id).control;
    (if control.Some? then [(rules[0].id, control.value)] else []) + PreviousHolds(rules[1..], states)
  }

  function RuleIds(rules: seq<Rule>): set<RuleId> {
    set r | r in rules :: r.id
  }

  function Retained(states: States, report: seq<Rule>): States {
    map id | id in RuleIds(report) :: StateOf(states, id)
  }

  function ApplyLoaded(c: Core, previous: seq<Rule>, report: seq<Rule>, saves: bool): Core {
    if report == [] then c else
    var c1 := ApplyLoaded(c, previous, report[..|report| - 1], saves);
    var loaded := report[|report| - 1];
    var i := FindRule(previous, loaded.id);
    if i == |previous| then c1 else ApplyRuleChange(c1, previous[i], Between(previous[i], loaded), saves)
  }

  function HandOverRemoved(c: Core, holds: seq<(RuleId, ControlHold)>, report: seq<Rule>): Core {
    if holds == [] then c else
    var c1 := HandOverRemoved(c, holds[..|holds| - 1], report);
    var (id, hold) := holds[|holds| - 1];
    if HasRule(report, id) then c1 else HandOver(c1, id, Some(hold), None)
  }

  /** Is the rule that made this write enabled and still naming that channel? */
  predicate StillDriven(rules: seq<Rule>, hold: StoredHold) {
    exists i | 0 <= i < |rules| ::
      rules[i].enabled && rules[i].id == hold.ruleId && rules[i].target == hold.channel
  }

  function RestoreHandovers(book: Book, stored: Book): Book {
    if stored == [] then book
    else Restore(RestoreHandovers(book, stored[..|stored| - 1]), stored[|stored| - 1].(nextAttemptTick := 0))
  }

  function RestoreHolds(book: Book, rules: seq<Rule>, holds: seq<StoredHold>): Book {
    if holds == [] then book else
    var b := RestoreHolds(book, rules, holds[..|holds| - 1]);
    var hold := holds[|holds| - 1];
    if StillDriven(rules, hold) then b
    else Restore(b, Handover(hold.channel, hold.ruleId, NeedsVerification, 0, 0, false, 0))
  }

  function Recover(c: Core): Core {
    var book := RestoreHolds(RestoreHandovers(c.book, c.disk.handovers), c.rules, c.disk.holds);
    c.(book := book, dirty := c.dirty || |book| > |c.book|)
  }

  function Load(c: Core, report: seq<Rule>, saves: bool): Core {
    var c1 := c.(rules := SortRules(report), states := Retained(c.states, report));
    var c2 := ApplyLoaded(c1, c.rules, report, saves);
    var c3 := HandOverRemoved(c2, PreviousHolds(c.rules, c.states), report);
    var c4 := Flush(c3.(rules := ResolveConflicts(SortRules(c3.rules))), saves);
    if c4.recovered then c4 else Recover(c4.(recovered := true))
  }

  // ------------------------------------------------------------------ editing rules

  /** Save a rule; `accepted` says whether validation, hardware checks and the rule file agreed. */
  function Save(c: Core, rule: Rule, accepted: bool, saves: bool): Core {
    if !accepted || (rule.enabled && Conflicts(c.rules, rule)) then c else
    var i := FindRule(c.rules, rule.id);
    var c1 := c.(
      rules := SortRules(WithoutRule(c.rules, rule.id) + [rule]),
      states := c.states[rule.id := StateOf(c.states, rule.id).(nextDueMs := 0)]);
    if i == |c.rules| then c1 else ApplyRuleChange(c1, c.rules[i], Between(c.rules[i], rule), saves)
  }

  function SetEnabled(c: Core, id: RuleId, enabled: bool, accepted: bool, saves: bool): Core {
    var i := FindRule(c.rules, id);
    if i == |c.rules| then c
    else if enabled && !c.rules[i].enabled && Conflicts(c.rules, c.rules[i]) then c
    else Save(c, c.rules[i].(enabled := enabled), accepted, saves)
  }

  function Delete(c: Core, id: RuleId, saves: bool): Core {
    var held := StateOf(c.states, id).control;
    var c1 := c.(rules := WithoutRule(c.rules, id), states := c.states - {id});
    Flush(HandOver(c1, id, held, None), saves)
  }

  // ------------------------------------------------------------------ one tick

  datatype Resolution = Gone | ReadOnly | Writable

  /** What one rule meets when it is run. */
  datatype RuleEnv = RuleEnv(
    /** The target device and capability can be resolved. */
    resolves: bool,
    /** The evaluation asks for a write. */
    wants: bool,
    result: WriteResult,
    failSafe: WriteResult)

  /** Everything the environment decides during a tick. */
  datatype TickEnv = TickEnv(
    automation: bool,
    stale: bool,
    force: bool,
    now: int,
    saves: bool,
    resolve: Channel -> Resolution,
    handover: nat -> WriteResult,
    rule: nat -> RuleEnv)

  /** Is an enabled rule driving this channel, with a confirmed value to show for it? */
  predicate ConfirmedOwner(rules: seq<Rule>, states: States, c: Channel) {
    var i := Claimant(rules, c);
    i < |rules| && rules[i].id in states
    && states[rules[i].id].control.Some?
    && states[rules[i].id].control.value.channel == c
    && states[rules[i].id].control.value.confirmed.Some?
  }

  function VerifyOne(book: Book, c: Channel, env: TickEnv, ticks: nat): (Book, bool) {
    if env.resolve(c).Writable? then Verified(book, c, ticks) else FailRecovered(book, c)
  }

  /** Check the recovered items against the device; `items` is the book when the check began. */
  function VerifyItems(book: Book, items: Book, env: TickEnv, ticks: nat): (Book, bool) {
    if items == [] then (book, false) else
    var (b, changed) := VerifyItems(book, items[..|items| - 1], env, ticks);
    var item := items[|items| - 1];
    if !item.state.NeedsVerification? then (b, changed) else
    var (b1, changed1) := VerifyOne(b, item.channel, env, ticks);
    (b1, changed || changed1)
  }

  function VerifyRecovered(c: Core, env: TickEnv): Core {
    if env.stale then c else
    var (b, changed) := VerifyItems(c.book, c.book, env, c.ticks);
    c.(book := b, dirty := c.dirty || changed)
  }

  /** An item nobody claims: resume it if a claim had stopped it, and try the fail-safe duty if it is due. */
  function Attempt(book: Book, h: Handover, tick: nat, result: WriteResult): (r: (Book, seq<Event>)) {
    var c := h.channel;
    var (b, resumed) := if h.state.Pending? then (book, true) else ReleaseClaim(book, c, tick);
    if !resumed || !IsDue(b, c, tick) then (b, []) else
    (if result.Applied? && result.value.Some? then Settle(b, c) else RecordAttempt(b, c, tick),
     [HandoverWrite(c, result)])
  }

  /** One item of the handover pass: `h` is the item as it was when the pass began. */
  function HandoverItem(rules: seq<Rule>, states: States, book: Book, h: Handover, tick: nat, result: WriteResult)
    : (r: (Book, seq<Event>))
  {
    var c := h.channel;
    if ConfirmedOwner(rules, states, c) then (Settle(book, c), [])
    else if Claimant(rules, c) < |rules| then
      var (b, waited) := MarkAwaiting(book, c);
      (if waited > HANDOVER_OWNER_WAIT_TICKS then ParkUnmetClaim(b, c) else b, [])
    else Attempt(book, h, tick, result)
  }

  function HandoverPass(rules: seq<Rule>, states: States, book: Book, items: Book, tick: nat,
                        results: nat -> WriteResult)
    : (r: (Book, seq<Event>))
  {
    if items == [] then (book, []) else
    var n := |items| - 1;
    var (b, events) := HandoverPass(rules, states, book, items[..n], tick, results);
    var (b1, events1) := HandoverItem(rules, states, b, items[n], tick, results(n));
    (b1, events + events1)
  }

  function PerformHandovers(c: Core, env: TickEnv, tick: nat): (Core, seq<Event>) {
    var c1 := VerifyRecovered(c, env);
    var (b, events) := HandoverPass(c1.rules, c1.states, c1.book, c1.book, tick, env.handover);
    (c1.(book := b, dirty := c1.dirty || c1.book != []), events)
  }

  function Remember(c: Core, id: RuleId, s: RuleState): Core {
    c.(states := c.states[id := s])
  }

  /** A write whose outcome is unknown: remember it, and write it down at once. */
  function RecordUnknown(c: Core, rule: Rule, s: RuleState, now: int, saves: bool): (Core, RuleState) {
    var s1 := s.(control := Some(ControlHold(rule.target, None, now)));
    (Flush(Remember(c, rule.id, s1).(dirty := true), saves), s1)
  }

  function HandleWriteFailure(c: Core, rule: Rule, s: RuleState, env: RuleEnv, now: int, saves: bool)
    : (r: (Core, seq<Event>))
    ensures r.0.rules == c.rules
  {
    var (c1, s1) := RecordUnknown(c, rule, s, now, saves);
    (Remember(c1, rule.id, s1.(nextDueMs := now + rule.interval)),
     if rule.onWriteFailure.Hold? then [] else [FailSafeWrite(rule.id, rule.target, env.failSafe)])
  }

  /** The device took the write and confirmed nothing; after too many in a row, the failure policy runs. */
  function AfterUnconfirmed(c: Core, rule: Rule, s: RuleState, env: RuleEnv, now: int, saves: bool)
    : (r: (Core, seq<Event>))
    ensures r.0.rules == c.rules
  {
    var (c1, s1) := RecordUnknown(c, rule, s.(unconfirmedRun := s.unconfirmedRun + 1), now, saves);
    if s1.unconfirmedRun >= MAX_CONSECUTIVE_UNCONFIRMED
    then HandleWriteFailure(c1, rule, s1.(unconfirmedRun := 0), env, now, saves)
    else (c1, [])
  }

  /** Run one due rule. */
  function RunRule(c: Core, rule: Rule, env: RuleEnv, now: int, saves: bool): (r: (Core, seq<Event>))
    ensures r.0.rules == c.rules
  {
    var s := StateOf(c.states, rule.id).(nextDueMs := now + rule.interval);
    if !env.resolves || !env.wants then (Remember(c, rule.id, s), []) else
    var (c1, more) :=
      match env.result
      case Applied(v) =>
        (Remember(c, rule.id, s.(control := Some(ControlHold(rule.target, v, now)), unconfirmedRun := 0)), [])
      case Unconfirmed => AfterUnconfirmed(c, rule, s, env, now, saves)
      case Rejected => (Remember(c, rule.id, s), [])
      case Error => HandleWriteFailure(c, rule, s, env, now, saves);
    (c1, [RuleWrite(rule.id, rule.target, env.result)] + more)
  }

  /** Has an earlier enabled rule of this cycle claimed the target of rule `n`? */
  predicate ClaimedBefore(rules: seq<Rule>, n: nat)
    requires n < |rules|
  {
    exists k | 0 <= k < n :: rules[k].enabled && rules[k].target == rules[n].target
  }

  function RuleTurn(c: Core, n: nat, env: TickEnv): (r: (Core, seq<Event>))
    requires n < |c.rules|
    ensures r.0.rules == c.rules
  {
    var rule := c.rules[n];
    if !rule.enabled then (c, []) else
    var s := StateOf(c.states, rule.id);
    if ClaimedBefore(c.rules, n) then (Remember(c, rule.id, s.(nextDueMs := env.now + rule.interval)), [])
    else if !env.force && s.nextDueMs > env.now then (Remember(c, rule.id, s), [])
    else RunRule(c, rule, env.rule(n), env.now, env.saves)
  }

  /** The first `n` rules take their turns; no turn changes the list of rules. */
  function RunRules(c: Core, n: nat, env: TickEnv): (r: (Core, seq<Event>))
    requires n <= |c.rules|
    ensures r.0.rules == c.rules
  {
    if n == 0 then (c, []) else
    var (c1, events) := RunRules(c, n - 1, env);
    var (c2, events1) := RuleTurn(c1, n - 1, env);
    (c2, events + events1)
  }

  function Tick(c: Core, env: TickEnv): (r: (Core, seq<Event>)) {
    var c0 := c.(ticks := c.ticks + 1);
    if !env.automation then (c0, []) else
    var (c1, events) := PerformHandovers(c0, env, c.ticks);
    var (c2, events1) := RunRules(c1, |c1.rules|, env);
    (Flush(c2, env.saves), events + events1)
  }

  // ------------------------------------------------------------------ runs

  datatype Op =
    | LoadRules(report: seq<Rule>, saves: bool)
    | SaveRule(rule: Rule, accepted: bool, saves: bool)
    | SetRuleEnabled(id: RuleId, enabled: bool, accepted: bool, saves: bool)
    | DeleteRule(id: RuleId, saves: bool)
    | DoTick(env: TickEnv)
    | VerifyState(env: TickEnv)
    | RetryAll
    | RetryOne(channel: Channel)
    | ResetStates
    | PersistState(saves: bool)
    | Stop(saves: bool)
    | Crash

  function Step(c: Core, op: Op): (r: (Core, seq<Event>)) {
    match op
    case LoadRules(report, saves) => (Load(c, report, saves), [])
    case SaveRule(rule, accepted, saves) => (Save(c, rule, accepted, saves), [])
    case SetRuleEnabled(id, enabled, accepted, saves) => (SetEnabled(c, id, enabled, accepted, saves), [])
    case DeleteRule(id, saves) => (Delete(c, id, saves), [])
    case DoTick(env) => Tick(c, env)
    case VerifyState(env) => (VerifyRecovered(c, env), [])
    case RetryAll => (c.(book := RetryFailed(c.book, c.ticks)), [])
    case RetryOne(channel) => (c.(book := RetryFailedOne(c.book, channel, c.ticks)), [])
    case ResetStates => (c.(states := map id | id in c.states :: c.states[id].(unconfirmedRun := 0)), [])
    case PersistState(saves) => (Persist(c, saves), [])
    case Stop(saves) => (Flush(c.(dirty := c.dirty || c.book != []), saves), [])
    case Crash => (Fresh(c.disk), [])
  }

  /** The core after every operation of `ops`, starting as a fresh process that finds `disk`. */
  function Run(disk: Record, ops: seq<Op>): Core {
    if ops == [] then Fresh(disk) else Step(Run(disk, ops[..|ops| - 1]), ops[|ops| - 1]).0
  }
}
