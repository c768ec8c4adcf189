// What lies outside the bridge: the GL contexts and the names in them, and the consumed fence of
// the host. A driver call may fail or report an error at any time; `faults` counts such reports.
module GlMachine {
  import opened Words
  import opened Wrappers

  // A context for ever, on the adapter that its driver runs on, under a handle that the system may
  // use again once the context is gone.
  datatype Context = Context(serial: nat, handle: nat, adapter: nat)

  datatype Kind = Memory | Texture | Semaphore | Framebuffer

  // The name `number` in the context `serial`. 0 is no name.
  datatype Owned = Owned(serial: nat, kind: Kind, number: nat)

  function NamesOf(serial: nat, kind: Kind, numbers: seq<nat>): set<Owned> {
    set number | number in numbers && number != 0 :: Owned(serial, kind, number)
  }

  predicate Distinct(numbers: seq<nat>) {
    forall i, j :: 0 <= i < j < |numbers| && numbers[i] != 0 ==> numbers[i] != numbers[j]
  }

  // These names are gone; the ones among them that were not held are strays.
  predicate Swept(names: set<Owned>, strays: set<Owned>, names': set<Owned>, strays': set<Owned>, gone: set<Owned>) {
    names' == names - gone && strays' == strays + (gone - names)
  }

  lemma SweptTwice(
      a: set<Owned>, sa: set<Owned>, b: set<Owned>, sb: set<Owned>, c: set<Owned>, sc: set<Owned>,
      first: set<Owned>, second: set<Owned>)
    requires Swept(a, sa, b, sb, first) && Swept(b, sb, c, sc, second) && first !! second
    ensures Swept(a, sa, c, sc, first + second)
  {
  }

  // What a driver may answer when asked for names: zeros, or names nobody holds in that context.
  predicate Fresh(names: set<Owned>, serial: nat, kind: Kind, numbers: seq<nat>, count: nat) {
    |numbers| == count && Distinct(numbers) && names !! NamesOf(serial, kind, numbers)
  }

  class Machine {
    var current: Option<Context>
    var alive: set<Context>
    var nextSerial: nat
    var names: set<Owned>  // created by the bridge or the producer, and not deleted
    ghost var strays: set<Owned>  // deleted although neither of them had created it there
    var ready: u64         // the greatest value signalled on the ready fence
    var consumed: u64      // the completed value of the consumed fence, MaxU64 once the device is gone
    ghost var faults: nat

    ghost predicate Valid() reads this {
      && (current.Some? ==> current.value in alive)
      && (forall c <- alive :: c.handle != 0 && c.serial < nextSerial)
      && (forall c <- alive, d <- alive :: c.handle == d.handle || c.serial == d.serial ==> c == d)
      && (forall o <- names :: o.serial < nextSerial)
      && (consumed == MaxU64 || consumed <= ready)
    }

    function Handle(): nat reads this { if current.Some? then current.value.handle else 0 }

    // The game creates a context; its handle is one that no living context has.
    method CreateContext(handle: nat, adapter: nat) returns (c: Context)
      requires Valid() && handle != 0 && forall d <- alive :: d.handle != handle
      modifies this`alive, this`nextSerial
      ensures Valid() && c == Context(old(nextSerial), handle, adapter) && alive == old(alive) + {c}
    {
      c := Context(nextSerial, handle, adapter);
      alive := alive + {c};
      nextSerial := nextSerial + 1;
    }

    method MakeCurrent(c: Option<Context>)
      requires Valid() && (c.Some? ==> c.value in alive)
      modifies this`current
      ensures Valid() && current == c
    {
      current := c;
    }

    // A context dies with every name in it.
    method Destroy(c: Context)
      requires Valid() && c in alive
      modifies this`current, this`alive, this`names
      ensures Valid() && alive == old(alive) - {c}
      ensures current == if old(current) == Some(c) then None else old(current)
      ensures names == set o | o in old(names) && o.serial != c.serial
    {
      if current == Some(c) {
        current := None;
      }
      alive := alive - {c};
      names := set o | o in names && o.serial != c.serial;
    }

    // Time passes: the host may signal a value it has taken, or the device may be lost for good.
    method Elapse()
      requires Valid()
      modifies this`consumed
      ensures Valid() && (consumed == MaxU64 || old(consumed) <= consumed <= ready)
      ensures old(consumed) == MaxU64 ==> consumed == MaxU64
    {
      var lost: bool, value: u64 := *, *;
      if lost {
        consumed := MaxU64;
      } else if consumed <= value <= ready {
        consumed := value;
      }
    }

    method CreateNames(kind: Kind, count: nat) returns (numbers: seq<nat>, error: bool)
      requires Valid() && current.Some?
      modifies this`names, this`faults
      ensures Valid()
      ensures Fresh(old(names), current.value.serial, kind, numbers, count)
      ensures names == old(names) + NamesOf(current.value.serial, kind, numbers)
      ensures faults >= old(faults) && (error || 0 in numbers ==> faults > old(faults))
    {
      numbers := *;
      error := *;
      if !Fresh(names, current.value.serial, kind, numbers, count) {
        numbers := seq(count, _ => 0);
      }
      names := names + NamesOf(current.value.serial, kind, numbers);
      if error || 0 in numbers {
        faults := faults + 1;
      }
    }

    // Deletes whatever the current context has under these names. 0 is ignored.
    method DeleteNames(kind: Kind, numbers: seq<nat>)
      requires Valid() && current.Some?
      modifies this`names, this`strays
      ensures Valid()
      ensures Swept(old(names), old(strays), names, strays, NamesOf(current.value.serial, kind, numbers))
    {
      var gone := NamesOf(current.value.serial, kind, numbers);
      strays := strays + (gone - names);
      names := names - gone;
    }

    // Any other driver call, or a few of them, and the errors they left behind.
    method Call() returns (error: bool)
      modifies this`faults
      ensures faults >= old(faults) && (error ==> faults > old(faults))
    {
      error := *;
      if error {
        faults := faults + 1;
      }
    }

    // Two new fences at zero.
    method CreateFences()
      requires Valid()
      modifies this`ready, this`consumed
      ensures Valid() && ready == consumed == 0
    {
      ready, consumed := 0, 0;
    }

    // A signal of the ready fence. When an error is reported it may or may not have been queued.
    method SignalFence(value: u64) returns (error: bool)
      requires Valid()
      modifies this`ready, this`faults
      ensures Valid() && faults >= old(faults) && (error ==> faults > old(faults))
      ensures ready == Later(old(ready), value) || (error && ready == old(ready))
    {
      error := *;
      var queued: bool := *;
      if error {
        faults := faults + 1;
      }
      if !error || queued {
        ready := Later(ready, value);
      }
    }
  }

  function Later(a: u64, b: u64): u64 { if a < b then b else a }
}
