/** An API server with optimistic concurrency, for one object: every write gets the next
    resource version, and a replacement is accepted only of the version it was read at.
    The server is not part of this repository; this is the contract the controller is
    written against. */
module ApiServer {
  import opened Prelude

  /** Entry n is the object after the n-th write, None when that was a deletion. So a
      resource version is an index. */
  type History<T> = seq<Option<T>>

  datatype Versioned<+T> = Versioned(item: T, version: nat)

  datatype ApiError = NotFound | AlreadyExists | Conflict | Failed

  /** What happens to a write on its way: it may be refused, or be applied while its
      answer is lost. */
  datatype Fault = Works | Refused | LostAnswer

  /** A copy of something the server did hold, however old. */
  ghost predicate Genuine<T>(h: History<T>, v: Versioned<T>) {
    v.version < |h| && h[v.version] == Some(v.item)
  }

  function Latest<T>(h: History<T>): Option<Versioned<T>> {
    if h != [] && h[|h| - 1].Some? then Some(Versioned(h[|h| - 1].value, |h| - 1)) else None
  }

  /** Create fails over an existing object. */
  function Created<T>(h: History<T>, item: T): (History<T>, Result<Versioned<T>, ApiError>) {
    if Latest(h).Some? then (h, Err(AlreadyExists)) else (h + [Some(item)], Ok(Versioned(item, |h|)))
  }

  /** Update replaces the version it names and no other. What changes nothing makes no
      new version. */
  function Replaced<T(==)>(h: History<T>, v: Versioned<T>): (History<T>, Result<Versioned<T>, ApiError>) {
    match Latest(h)
    case None => (h, Err(NotFound))
    case Some(current) =>
      if current.version != v.version then (h, Err(Conflict))
      else if current.item == v.item then (h, Ok(current))
      else (h + [Some(v.item)], Ok(Versioned(v.item, |h|)))
  }

  /** Whatever a read returned, an accepted replacement of it replaces exactly that. */
  lemma ReplacedWhatWasRead<T>(h: History<T>, seen: Versioned<T>, item: T)
    requires Genuine(h, seen) && Replaced(h, Versioned(item, seen.version)).1.Ok?
    ensures Latest(h) == Some(seen)
    ensures Replaced(h, Versioned(item, seen.version)).0 == if item == seen.item then h else h + [Some(item)]
  {
  }

  /** The server as the controller's calls change it, with the writes of others. */
  class Store<T(==)> {
    var history: History<T>

    constructor (history: History<T>)
      ensures this.history == history
    {
      this.history := history;
    }

    /** Other clients write, in whatever way the server lets them. */
    method Others(writes: History<T>)
      modifies this
      ensures history == old(history) + writes
    {
      history := history + writes;
    }

    method Get() returns (r: Option<Versioned<T>>)
      ensures r == Latest(history)
      ensures r.Some? ==> Genuine(history, r.value)
    {
      r := Latest(history);
    }

    method Create(item: T) returns (r: Result<Versioned<T>, ApiError>)
      modifies this
      ensures (history, r) == Created(old(history), item)
    {
      var (h, result) := Created(history, item);
      history, r := h, result;
    }

    method Replace(v: Versioned<T>) returns (r: Result<Versioned<T>, ApiError>)
      modifies this
      ensures (history, r) == Replaced(old(history), v)
    {
      var (h, result) := Replaced(history, v);
      history, r := h, result;
    }
  }
}
