/** The instance lease as one console sees it (web/api/app/cloud.py): what each call on the
    lease file computes, as functions of the file, and the class whose methods do it in place.
    A damaged or missing file reads as `None`. */
module Lease {
  import opened Common

  datatype Holder = Holder(id: string, generation: int, host: string, heartbeat: real, displaced: string)

  /** A holder whose heartbeat is older than three intervals counts as gone. */
  predicate Stale(h: Holder, now: real, interval: real) {
    now - h.heartbeat > 3.0 * interval
  }

  /** The previous holder must be waited for: another console, still beating. */
  predicate Alive(file: Option<Holder>, id: string, now: real, interval: real) {
    file.Some? && file.value.id != id && !Stale(file.value, now, interval)
  }

  /** What `take` writes: the next generation, and the host it pushed out when there was one. */
  function Taken(file: Option<Holder>, id: string, host: string, now: real, interval: real): Holder {
    Holder(
      id,
      (if file.Some? then file.value.generation else 0) + 1,
      host,
      now,
      if Alive(file, id, now, interval) && file.value.host != host then file.value.host else "")
  }

  /** The live holder that pushed this host out, for which a console started here stands by. */
  predicate HeldBack(file: Option<Holder>, id: string, host: string, now: real, interval: real) {
    Alive(file, id, now, interval) && file.value.displaced == host
  }

  /** `beat` finds the lease lost. */
  predicate Lost(file: Option<Holder>, id: string) {
    file.Some? && file.value.id != id
  }

  /** The file left by `release`. */
  function Released(file: Option<Holder>, id: string): Option<Holder> {
    if file.Some? && file.value.id == id then None else file
  }

  /** The lease file on the shared control directory; a rename replaces it as a whole. */
  class LeaseFile {
    var holder: Option<Holder>

    constructor ()
      ensures holder == None
    {
      holder := None;
    }
  }

  class InstanceLease {
    const file: LeaseFile
    const interval: real
    const id: string
    const host: string
    var generation: int
    var displaced: string

    constructor (file: LeaseFile, interval: real, id: string, host: string)
      ensures this.file == file && this.interval == interval && this.id == id && this.host == host
      ensures generation == 0 && displaced == ""
    {
      this.file := file;
      this.interval := interval;
      this.id := id;
      this.host := host;
      generation := 0;
      displaced := "";
    }

    /** What this console writes when it renews at time `now`. */
    function Self(now: real): Holder
      reads this
    {
      Holder(id, generation, host, now, displaced)
    }

    method Take(now: real) returns (previous: Option<Holder>)
      modifies this, file
      ensures file.holder == Some(Taken(old(file.holder), id, host, now, interval))
      ensures Self(now) == file.holder.value
      ensures previous == if Alive(old(file.holder), id, now, interval) then old(file.holder) else None
    {
      var current := file.holder;
      generation := (if current.Some? then current.value.generation else 0) + 1;
      var alive := current.Some? && current.value.id != id && !Stale(current.value, now, interval);
      displaced := if alive && current.value.host != host then current.value.host else "";
      file.holder := Some(Self(now));
      if !alive {
        return None;
      }
      return current;
    }

    method DisplacedHere(now: real) returns (holder: Option<Holder>)
      ensures holder == if HeldBack(file.holder, id, host, now, interval) then file.holder else None
    {
      var current := file.holder;
      if current.None? || current.value.id == id || Stale(current.value, now, interval) {
        return None;
      }
      return if current.value.displaced == host then current else None;
    }

    method Beat(now: real) returns (kept: bool)
      modifies file
      ensures kept == !Lost(old(file.holder), id)
      ensures file.holder == if kept then Some(Self(now)) else old(file.holder)
    {
      var current := file.holder;
      if current.Some? && current.value.id != id {
        return false;
      }
      file.holder := Some(Self(now));
      return true;
    }

    method Release()
      modifies file
      ensures file.holder == Released(old(file.holder), id)
    {
      var current := file.holder;
      if current.Some? && current.value.id == id {
        file.holder := None;
      }
    }
  }
}
