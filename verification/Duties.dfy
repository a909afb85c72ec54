/** What reaches the fan: the byte in its duty file, the mode in its ownership file, and when. */
module Duties {
  import opened Ids
  import opened Hwmon

  /** The channel can be driven: it has no ownership file, is in manual mode already, or can be switched to it. */
  predicate Drivable(fan: Fan, luck: Luck) {
    fan.enable.None? || (luck.readable && fan.enable.value.Number? && (fan.enable.value.value == 1 || luck.takes))
  }

  /** Why a write is refused, in the order the program finds out; `None` when it is made. */
  function Refused(m: Machine, id: string, duty: Duty, luck: Luck): Option<Refusal> {
    if id !in m.allow then Some(NotAllowed)
    else if duty.NotNumeric? then Some(NotADuty)
    else if id !in m.fans || !luck.present then Some(ChannelGone)
    else if !Drivable(m.fans[id], luck) then
      Some(if luck.readable && m.fans[id].enable.value.Number? then SwitchFailed else OwnerUnknown)
    else if m.fans[id].pwm.None? || duty.NonFinite? || !luck.sets then Some(DutyFailed)
    else None
  }

  /** The duty brought into 0 to 100, and the byte that is nearest to it. */
  predicate NearestByte(percent: real, raw: int) {
    && 0 <= raw <= 255
    && (percent <= 0.0 ==> raw == 0)
    && (percent >= 100.0 ==> raw == 255)
    && (0.0 <= percent <= 100.0 ==> -0.5 <= raw as real - percent * 2.55 <= 0.5)
  }

  lemma {:induction false} RawIsNearest(percent: real)
    ensures NearestByte(percent, RawDuty(percent))
  {
    var x := ClampPercent(percent) / 100.0 * PWM_FULL_SCALE;
    var raw := RawDuty(percent);
    assert raw as real <= x + 0.5 < raw as real + 1.0;
  }

  /**
   * A write succeeds exactly when nothing refuses it: the channel is allowed and there, its ownership
   * can be taken, and the duty is a number that can be written. Then the duty file holds the nearest
   * byte and the channel is in manual mode; otherwise the duty file is as it was.
   */
  lemma {:induction false} DutyReachesTheFan(m: Machine, id: string, duty: Duty, luck: Luck)
    ensures var (after, outcome) := Write(m, id, duty, luck);
            var refused := Refused(m, id, duty, luck);
            && after.fans.Keys == m.fans.Keys && after.allow == m.allow
            && (outcome.Wrote? <==> refused.None?)
            && (outcome.Rejected? ==> Some(outcome.why) == refused)
            && (outcome.Wrote? ==>
                  && NearestByte(duty.value, outcome.raw)
                  && -100.0 / 510.0 <= PercentOf(outcome.raw) - ClampPercent(duty.value) <= 100.0 / 510.0
                  && after.fans[id].pwm == Some(outcome.raw)
                  && after.fans[id].enable == (if m.fans[id].enable.Some? then Some(Number(1)) else None))
            && (outcome.Rejected? && id in m.fans ==> after.fans[id].pwm == m.fans[id].pwm)
  {
    hide RawDuty;
    if duty.Percent? {
      RawIsNearest(duty.value);
      DutyRoundTrip(duty.value);
    }
  }

  /**
   * What is remembered after a write. A channel switched by this write is remembered in the mode it
   * had; a write that fails at the duty gives the channel back and forgets it; any other write leaves
   * the memory as it was.
   */
  lemma {:induction false} ModeIsRemembered(m: Machine, id: string, duty: Duty, luck: Luck)
    requires id in m.fans
    ensures var (after, outcome) := Write(m, id, duty, luck);
            var fan := m.fans[id];
            var switched := fan.enable.Some? && fan.enable.value.Number? && fan.enable.value.value != 1;
            var owed := if switched then RestorableValue(FromSysfs(fan.enable.value))
                        else if id in m.taken then RestorableValue(m.taken[id]) else None;
            match outcome
            case Wrote(_) =>
              if switched then id in after.taken && after.taken[id] == FromSysfs(fan.enable.value)
              else Lookup(after.taken, id) == Lookup(m.taken, id)
            case Rejected(DutyFailed) =>
              && id !in after.taken
              && (fan.enable.Some? && owed.Some? && luck.restores ==> after.fans[id].enable == Some(Number(owed.value)))
            case Rejected(_) => after == m
  {}

  /** A successor that may write a channel its predecessor drove gives it back at once, and goes on remembering it. */
  lemma {:induction false} SuccessorGivesBack(m: Machine, allow: set<string>, fate: string -> Luck, id: string,
                                              original: Content)
    requires Kept(m, id, original) && id in m.taken
    requires id in allow && fate(id).present && fate(id).restores
    ensures var after := Step(m, Crash(allow, fate));
            && after.fans[id].enable == Some(original) && after.fans[id].pwm == m.fans[id].pwm
            && id in after.taken && RestorableValue(after.taken[id]) == Some(original.value)
  {
    ModeRoundTrip(original);
  }

  /** A channel nobody drove is not touched when processes come and go. */
  lemma {:induction false} UntakenIsLeft(m: Machine, op: Op, id: string)
    requires !op.DoWrite? && id in m.fans && id !in m.taken
    ensures var after := Step(m, op); id in after.fans && after.fans[id] == m.fans[id] && id !in after.taken
  {}
}
