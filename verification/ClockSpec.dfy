/** The clocks handed to clients and what a later query makes of them (Clock.cpp). */
module ClockSpec {

  /** One process and one instance of a root; a new one is made at every restart or new watch. */
  datatype Instance = Instance(startTime: nat, pid: int, rootNumber: nat)

  datatype Spec = Timestamp(time: int) | Clock(instance: Instance, ticks: nat) | NamedCursor(cursor: string)

  datatype Since = SinceTime(time: int) | SinceClock(freshInstance: bool, ticks: nat)

  /** ClockSpec::evaluate, with the cursors it leaves behind. */
  function Evaluate(spec: Spec, here: Instance, tick: nat, lastAgeOut: nat, cursors: map<string, nat>)
    : (r: (Since, map<string, nat>))
    ensures spec.Timestamp? ==> r.0 == SinceTime(spec.time)
    ensures r.0.SinceClock? && !r.0.freshInstance ==> lastAgeOut <= r.0.ticks
    ensures r.0.SinceClock? && !r.0.freshInstance && spec.Clock? ==> spec == Clock(here, r.0.ticks)
    ensures spec.Clock? ==> r.0.SinceClock? && (r.0.freshInstance <==> spec.instance != here || spec.ticks < lastAgeOut)
    ensures spec.Clock? && r.0.freshInstance ==> r.0.ticks == 0
    ensures spec.NamedCursor? ==>
              && spec.cursor in r.1 && r.1[spec.cursor] == tick && r.0.SinceClock?
              && (r.0.freshInstance <==> spec.cursor !in cursors || cursors[spec.cursor] < lastAgeOut)
              && r.0.ticks == (if spec.cursor in cursors then cursors[spec.cursor] else 0)
    ensures forall n :: n in cursors ==> n in r.1
    ensures forall n :: n in r.1 && spec != NamedCursor(n) ==> n in cursors && r.1[n] == cursors[n]
  {
    match spec
    case Timestamp(t) => (SinceTime(t), cursors)
    case Clock(i, t) =>
      var isFresh := i != here || t < lastAgeOut;
      (SinceClock(isFresh, if isFresh then 0 else t), cursors)
    case NamedCursor(c) =>
      (if c !in cursors then SinceClock(true, 0) else SinceClock(cursors[c] < lastAgeOut, cursors[c]),
       cursors[c := tick])
  }
}
