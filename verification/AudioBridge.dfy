/**
 control/audio.py and harness/arco_synth.py: the two objects, proved against `Voices`.
 `bad` is the set of channels whose voice raises when called; `raised` says the call
 itself raised.
 */
module AudioBridges {
  import opened Wrappers
  import opened Voices

  class ArcoSynthPool {
    var live: bool
    var free: seq<nat>

    constructor ()
      ensures !live && free == AllChannels()
    {
      live, free := false, AllChannels();
    }

    method Start()
      modifies this`live
      ensures live
    {
      live := true;
    }

    method Quiesce()
      modifies this
      ensures !live && free == AllChannels()
    {
      live, free := false, AllChannels();
    }

    /** None: it raises, and takes nothing. */
    method Acquire(drums: bool) returns (c: Option<nat>)
      modifies this`free
      ensures c == Pick(live, old(free), drums)
      ensures free == if c.Some? then Remove(old(free), c.value) else old(free)
    {
      if !live {
        return None;
      }
      if drums {
        if DRUM_CHANNEL !in free {
          return None;
        }
        free := Remove(free, DRUM_CHANNEL);
        return Some(DRUM_CHANNEL);
      }
      for i := 0 to |free|
        invariant free == old(free) && FirstMelodic(free) == FirstMelodic(free[i..])
      {
        assert free[i..][1..] == free[i + 1..];
        if free[i] != DRUM_CHANNEL {
          var channel := free[i];
          free := Remove(free, channel);
          return Some(channel);
        }
      }
      c := None;
    }

    method Release(channel: nat)
      modifies this`free
      ensures free == Returned(old(free), channel)
    {
      if channel !in free {
        free := Insert(free, channel);
      }
    }
  }

  class AudioBridge {
    const pool: ArcoSynthPool
    var devices: seq<Entry>
    var pending: seq<Note>
    var shut: bool

    ghost function View(): Bridge
      reads this, pool
    {
      Bridge(pool.live, pool.free, devices, pending, shut)
    }

    constructor (pool: ArcoSynthPool)
      ensures this.pool == pool && View() == Bridge(pool.live, pool.free, [], [], false)
    {
      this.pool := pool;
      devices, pending, shut := [], [], false;
    }

    method FindEntry(dev: Dev) returns (i: nat)
      ensures i == Find(devices, dev)
    {
      i := 0;
      assert devices[0..] == devices;
      while i < |devices| && devices[i].dev != dev
        invariant i <= |devices| && Find(devices, dev) == i + Find(devices[i..], dev)
      {
        assert devices[i..][1..] == devices[i + 1..];
        i := i + 1;
      }
    }

    /** Every part's voice back to the pool, raising or not. */
    method GiveUp(parts: seq<Part>)
      modifies pool`free
      ensures pool.free == GiveBack(old(pool.free), Channels(parts))
    {
      for i := 0 to |parts|
        invariant GiveBack(old(pool.free), Channels(parts)) == GiveBack(pool.free, Channels(parts)[i..])
      {
        assert Channels(parts)[i..][1..] == Channels(parts)[i + 1..];
        pool.Release(parts[i].channel);
      }
    }

    /** `on_grant`'s loop. None: it raised, with what it had given back. */
    method Take(decls: seq<Decl>, bad: set<nat>) returns (parts: Option<seq<Part>>)
      modifies pool`free
      ensures Taken(pool.live, old(pool.free), decls, bad, [])
           == if parts.Some? then Took(pool.free, parts.value) else Failed(pool.free)
    {
      var taken: seq<Part> := [];
      for i := 0 to |decls|
        invariant Taken(pool.live, old(pool.free), decls, bad, [])
               == Taken(pool.live, pool.free, decls[i..], bad, taken)
      {
        assert decls[i..][1..] == decls[i + 1..];
        hide Pick;
        hide Remove;
        var c := pool.Acquire(decls[i].drums);
        if c.None? || !decls[i].lanesParse {
          GiveUp(taken);
          return None;
        }
        taken := taken + [Part(c.value, decls[i].drums)];
        if decls[i].program && c.value in bad {
          GiveUp(taken);
          return None;
        }
      }
      parts := Some(taken);
    }

    method OnGrant(dev: Dev, decls: seq<Decl>, welcome: Option<real>, bad: set<nat>)
      modifies this, pool`free
      ensures View() == Granted(old(View()), dev, decls, welcome, bad)
    {
      if shut {
        return;
      }
      var parts := Take(decls, bad);
      if parts.None? {
        return;
      }
      hide Taken;
      if decls != [] {
        var e := Entry(dev, parts.value, decls[0].drone, false);
        var i := FindEntry(dev);
        devices := if i < |devices| then devices[i := e] else devices + [e];
      }
      if welcome.Some? {
        PlayNote(welcome.value, bad);
      }
    }

    method PlayNote(due: real, bad: set<nat>)
      modifies this`pending, pool`free
      ensures View() == Played(old(View()), due, bad)
    {
      if shut {
        return;
      }
      var c := pool.Acquire(false);
      if c.None? || c.value in bad {
        return;
      }
      pending := pending + [Note(due, c.value)];
    }

    method EndNotes(ending: seq<Note>, bad: set<nat>) returns (raised: bool)
      modifies pool`free
      ensures (pool.free, raised) == Ended(old(pool.free), Waiting(ending), bad)
    {
      var cs := Waiting(ending);
      for i := 0 to |ending|
        invariant Ended(old(pool.free), cs, bad) == Ended(pool.free, cs[i..], bad)
      {
        assert cs[i..][1..] == cs[i + 1..] && cs[i] == ending[i].channel;
        if ending[i].channel in bad {
          return true;
        }
        pool.Release(ending[i].channel);
      }
      raised := false;
    }

    method Split(now: real) returns (ending: seq<Note>, sounding: seq<Note>)
      ensures ending == Due(pending, now) && sounding == StillSounding(pending, now)
    {
      ending, sounding := [], [];
      assert pending[0..] == pending;
      for i := 0 to |pending|
        invariant Due(pending, now) == ending + Due(pending[i..], now)
        invariant StillSounding(pending, now) == sounding + StillSounding(pending[i..], now)
      {
        assert pending[i..][1..] == pending[i + 1..];
        if now >= pending[i].due {
          ending := ending + [pending[i]];
        } else {
          sounding := sounding + [pending[i]];
        }
      }
      assert pending[|pending|..] == [];
    }

    method Tick(now: real, bad: set<nat>)
      modifies this`pending, pool`free
      ensures View() == Ticked(old(View()), now, bad)
    {
      var ending, sounding := Split(now);
      hide Due;
      hide StillSounding;
      hide Ended;
      var raised := EndNotes(ending, bad);
      if !raised {
        pending := sounding;
      }
    }

    /** The entry goes first; a drone whose voice raises keeps its parts' voices. True: it raised. */
    method ReleaseEntry(i: nat, bad: set<nat>) returns (raised: bool)
      requires i < |devices|
      modifies this`devices, pool`free
      ensures View() == ReleasedAt(old(View()), i, bad) && raised == AnyBad(old(devices)[i], bad)
    {
      var e := devices[i];
      devices := devices[..i] + devices[i + 1..];
      if e.sounding && e.parts != [] && e.parts[0].channel in bad {
        assert e.parts[0] in e.parts;
        return true;
      }
      GiveUp(e.parts);
      raised := exists p :: p in e.parts && p.channel in bad;
    }

    method OnRelease(dev: Dev, bad: set<nat>)
      modifies this`devices, pool`free
      ensures View() == Released(old(View()), dev, bad)
    {
      var i := FindEntry(dev);
      if i < |devices| {
        var _ := ReleaseEntry(i, bad);
      }
    }

    method Shutdown(bad: set<nat>)
      modifies this, pool
      ensures View() == ShutDown(old(View()), bad)
    {
      shut := true;
      var raised := EndNotes(pending, bad);
      if !raised {
        pending := [];
        ghost var b1 := View();
        while devices != [] && !raised
          invariant Emptied(b1, bad) == if raised then View() else Emptied(View(), bad)
          invariant pool.live == old(pool.live) && shut
          decreases |devices|
        {
          raised := ReleaseEntry(0, bad);
        }
        EmptiedAnyway(b1, bad);
      }
      pool.live := false;
    }
  }

  /** Whether the pool is up makes no difference to giving voices back. */
  lemma {:induction false} EmptiedAnyway(b: Bridge, bad: set<nat>)
    ensures Emptied(b.(live := false), bad) == Emptied(b, bad).(live := false)
    decreases |b.devices|
  {
    if b.devices != [] && !AnyBad(b.devices[0], bad) {
      EmptiedAnyway(ReleasedAt(b, 0, bad), bad);
    }
  }
}
