/** The request the adapter hands to `ajax`, and the promise `ajax` returns,
    with the one continuation the action wrapper attaches to it
    (`promise.catch(...)`, action.js:63-68). The promise settles once, with
    an explicit `Settlement` standing for the transport's outcome. */
module Promises {
  import opened Js
  import opened Records

  /** The arguments of one `ajax(url, method, {data})` call. */
  datatype Request = Request(url: string, httpMethod: string, data: Dict)

  datatype Settlement = Fulfilled | Rejected

  /** The promise of one ajax call, for the record the action was triggered on. */
  class Pending {
    const target: Entity
    const request: Request
    /** The changes the rejection handler writes back; empty when no handler is attached. */
    var rollback: seq<Change>
    var settled: Option<Settlement>

    constructor (target: Entity, request: Request)
      ensures this.target == target && this.request == request
      ensures rollback == [] && settled == None
    {
      this.target := target;
      this.request := request;
      rollback := [];
      settled := None;
    }

    /** `promise.catch(() => ...)`: registers the writes of `changes` to run on
        rejection, after any registered before. The transport settles
        asynchronously, so a handler is always attached to a pending promise. */
    method Catch(changes: seq<Change>)
      requires settled == None
      modifies this`rollback
      ensures rollback == old(rollback) + changes
    {
      rollback := rollback + changes;
    }

    /** The transport settles the promise. Only the first settlement has an
        effect; a rejection runs the registered writes, a success runs none. */
    method Settle(outcome: Settlement)
      modifies this`settled, target`attrs
      ensures old(settled) != None ==> settled == old(settled) && target.attrs == old(target.attrs)
      ensures old(settled) == None ==> settled == Some(outcome)
      ensures old(settled) == None && outcome == Rejected ==> target.attrs == Revert(old(target.attrs), rollback)
      ensures outcome == Fulfilled ==> target.attrs == old(target.attrs)
    {
      if settled != None {
        return;
      }
      settled := Some(outcome);
      if outcome == Rejected {
        var i := 0;
        while i < |rollback|
          invariant 0 <= i <= |rollback|
          invariant target.attrs == Revert(old(target.attrs), rollback[..i])
          invariant settled == Some(outcome)
        {
          assert rollback[..i + 1][..i] == rollback[..i];
          target.Set(rollback[i].key, rollback[i].oldValue);
          i := i + 1;
        }
        assert rollback[..|rollback|] == rollback;
      }
    }
  }
}
