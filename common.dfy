/** Vocabulary shared by both copies of the LED controller: the optional value,
    the colour written to the single NeoPixel, and the four device states with
    their wire names. */
module Common {

  datatype Option<+T> = None | Some(value: T)

  /** One channel of a NeoPixel colour. */
  type Channel = c: int | 0 <= c < 256

  /** A colour triple, in the order the configuration tables write it (the
      tables' comments say the strip is wired GRB). */
  type Rgb = (Channel, Channel, Channel)

  const Off: Rgb := (0, 0, 0)

  /** The FSM states; IDLE is the initial one. */
  datatype State = Idle | Active | Notify | Pause

  /** The upper-case name used on the wire and in the transition tables. */
  function StateName(s: State): string
  {
    match s
    case Idle => "IDLE"
    case Active => "ACTIVE"
    case Notify => "NOTIFY"
    case Pause => "PAUSE"
  }

  /** Looks a name up in the list of the four states; only the exact
      upper-case names are recognised. */
  function StateOf(name: string): (r: Option<State>)
    ensures r.Some? ==> StateName(r.value) == name
    ensures forall s: State :: StateName(s) == name ==> r == Some(s)
  {
    if name == "IDLE" then Some(Idle)
    else if name == "ACTIVE" then Some(Active)
    else if name == "NOTIFY" then Some(Notify)
    else if name == "PAUSE" then Some(Pause)
    else None
  }

  /** The position, in milliseconds, within the 2000 ms fade cycle. Python's
      `%` with a positive divisor agrees with Dafny's. */
  function CyclePhase(ticks: int, fadeStart: int): (p: int)
    ensures 0 <= p < 2000
    ensures 0 <= ticks - fadeStart < 2000 ==> p == ticks - fadeStart
  {
    (ticks - fadeStart) % 2000
  }

  /** The phase is what is left of the elapsed ticks once whole cycles are
      taken away: any split of the elapsed ticks into `k` whole cycles and a
      remainder in [0, 2000) names the phase. */
  lemma CyclePhaseOf(ticks: int, fadeStart: int, k: int, q: int)
    requires 0 <= q < 2000 && ticks - fadeStart == 2000 * k + q
    ensures CyclePhase(ticks, fadeStart) == q
  {
    var p := CyclePhase(ticks, fadeStart);
    var d := (ticks - fadeStart) / 2000;
    assert ticks - fadeStart == 2000 * d + p;
    assert 2000 * (k - d) == p - q;
  }

  /** The fade repeats every 2000 ticks. */
  lemma CyclePhasePeriodic(ticks: int, fadeStart: int)
    ensures CyclePhase(ticks + 2000, fadeStart) == CyclePhase(ticks, fadeStart)
  {
    var p := CyclePhase(ticks, fadeStart);
    var d := (ticks - fadeStart) / 2000;
    CyclePhaseOf(ticks + 2000, fadeStart, d + 1, p);
  }
}
