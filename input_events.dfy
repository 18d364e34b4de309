/** The input device the controllers drive (keyboard key presses, holds and
    releases) together with the timed sleeps between them, recorded as one
    trace of events, and an analysis of which keys a trace leaves held and for
    how long each key is held down. */
module Input {

  datatype Event =
    | Pressed(key: string)    // a single key pulse (down and up at once)
    | Down(key: string)       // key pressed and held
    | Up(key: string)         // key released
    | Slept(seconds: real)    // a blocking sleep

  /** The keyboard and the sleep primitive: every call appends one event. */
  class Device {
    var events: seq<Event>

    constructor ()
      ensures events == []
    {
      events := [];
    }

    method Press(key: string)
      modifies this
      ensures events == old(events) + [Pressed(key)]
    {
      events := events + [Pressed(key)];
    }

    method KeyDown(key: string)
      modifies this
      ensures events == old(events) + [Down(key)]
    {
      events := events + [Down(key)];
    }

    method KeyUp(key: string)
      modifies this
      ensures events == old(events) + [Up(key)]
    {
      events := events + [Up(key)];
    }

    method Sleep(seconds: real)
      modifies this
      ensures events == old(events) + [Slept(seconds)]
    {
      events := events + [Slept(seconds)];
    }
  }

  /** A key held for `seconds`: key down, sleep, key up. */
  function Hold(key: string, seconds: real): seq<Event>
  {
    [Down(key), Slept(seconds), Up(key)]
  }

  /** `block` repeated `n` times. */
  function Repeat<T>(block: seq<T>, n: nat): seq<T>
  {
    if n == 0 then [] else Repeat(block, n - 1) + block
  }

  /** The set of keys held down after one event. */
  function Apply(held: set<string>, e: Event): set<string>
  {
    match e
    case Pressed(k) => held - {k}
    case Down(k) => held + {k}
    case Up(k) => held - {k}
    case Slept(_) => held
  }

  /** The set of keys held down after `events`, starting with `held`. */
  function HeldAfter(held: set<string>, events: seq<Event>): set<string>
    decreases |events|
  {
    if events == [] then held else HeldAfter(Apply(held, events[0]), events[1..])
  }

  /** Total time `key` is held down during `events`, starting with `held`:
      the sum of the sleeps taken while it is down. */
  function HeldTime(held: set<string>, events: seq<Event>, key: string): real
    decreases |events|
  {
    if events == [] then 0.0
    else
      (if events[0].Slept? && key in held then events[0].seconds else 0.0)
      + HeldTime(Apply(held, events[0]), events[1..], key)
  }

  /** The keys pulsed by `events`, in order. */
  function Presses(events: seq<Event>): (keys: seq<string>)
    ensures |keys| <= |events|
  {
    if events == [] then []
    else (if events[0].Pressed? then [events[0].key] else []) + Presses(events[1..])
  }

  lemma {:induction false} HeldAfterAppend(held: set<string>, a: seq<Event>, b: seq<Event>)
    ensures HeldAfter(held, a + b) == HeldAfter(HeldAfter(held, a), b)
    decreases |a|
  {
    if a == [] {
      assert a + b == b;
    } else {
      assert (a + b)[0] == a[0] && (a + b)[1..] == a[1..] + b;
      HeldAfterAppend(Apply(held, a[0]), a[1..], b);
    }
  }

  lemma {:induction false} HeldTimeAppend(held: set<string>, a: seq<Event>, b: seq<Event>, key: string)
    ensures HeldTime(held, a + b, key) == HeldTime(held, a, key) + HeldTime(HeldAfter(held, a), b, key)
    decreases |a|
  {
    if a == [] {
      assert a + b == b;
    } else {
      assert (a + b)[0] == a[0] && (a + b)[1..] == a[1..] + b;
      HeldTimeAppend(Apply(held, a[0]), a[1..], b, key);
    }
  }

  lemma {:induction false} PressesAppend(a: seq<Event>, b: seq<Event>)
    ensures Presses(a + b) == Presses(a) + Presses(b)
    decreases |a|
  {
    if a == [] {
      assert a + b == b;
    } else {
      assert (a + b)[0] == a[0] && (a + b)[1..] == a[1..] + b;
      PressesAppend(a[1..], b);
    }
  }

  /** Holding one key releases it again and holds it (and every key already
      down) for exactly the requested time. */
  lemma HoldEffect(held: set<string>, key: string, seconds: real, k: string)
    ensures HeldAfter(held, Hold(key, seconds)) == held - {key}
    ensures HeldTime(held, Hold(key, seconds), k) == if k == key || k in held then seconds else 0.0
    ensures Presses(Hold(key, seconds)) == []
  {
    var h := Hold(key, seconds);
    var down, released := held + {key}, held - {key};
    assert h[1..] == [Slept(seconds), Up(key)];
    assert h[1..][1..] == [Up(key)];
    assert h[1..][1..][1..] == [];
    assert HeldAfter(released, []) == released;
    assert HeldAfter(down, [Up(key)]) == released;
    assert HeldAfter(down, [Slept(seconds), Up(key)]) == released;
    assert HeldTime(released, [], k) == 0.0;
    assert HeldTime(down, [Up(key)], k) == 0.0;
    assert HeldTime(down, [Slept(seconds), Up(key)], k) == if k in down then seconds else 0.0;
    assert Presses([Up(key)]) == [];
    assert Presses([Slept(seconds), Up(key)]) == [];
  }

  /** A hold started on an idle keyboard returns it to idle and adds its time
      to its own key only. */
  lemma HoldThen(k: string, seconds: real, rest: seq<Event>, key: string)
    ensures HeldAfter({}, Hold(k, seconds) + rest) == HeldAfter({}, rest)
    ensures HeldTime({}, Hold(k, seconds) + rest, key) == (if key == k then seconds else 0.0) + HeldTime({}, rest, key)
    ensures Presses(Hold(k, seconds) + rest) == Presses(rest)
  {
    HoldEffect({}, k, seconds, key);
    var none: set<string> := {};
    assert none - {k} == none;
    HeldAfterAppend({}, Hold(k, seconds), rest);
    HeldTimeAppend({}, Hold(k, seconds), rest, key);
    PressesAppend(Hold(k, seconds), rest);
  }

  /** A block that leaves the keyboard idle can be repeated: the keyboard stays
      idle and every key is held `n` times as long as in one block. */
  lemma {:induction false} RepeatIdle(block: seq<Event>, n: nat, k: string)
    requires HeldAfter({}, block) == {}
    ensures HeldAfter({}, Repeat(block, n)) == {}
    ensures HeldTime({}, Repeat(block, n), k) == n as real * HeldTime({}, block, k)
  {
    if n > 0 {
      var prefix := Repeat(block, n - 1);
      assert Repeat(block, n) == prefix + block;
      RepeatIdle(block, n - 1, k);
      HeldAfterAppend({}, prefix, block);
      HeldTimeAppend({}, prefix, block, k);
      assert HeldTime({}, Repeat(block, n), k) == (n - 1) as real * HeldTime({}, block, k) + HeldTime({}, block, k);
    }
  }
}
