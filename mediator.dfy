/**
 * The listener hub of mediator/mediator.go: listeners register in order, and
 * each `Send*` calls the matching callback on every listener, first registered
 * first. What a callback does is the listener's business; the hub's behaviour is
 * which callback reaches which listener with which argument, in which order,
 * and that is what the delivery log records.
 */
module Mediator {

  /** The six callbacks of `MediatorListener`, with their arguments. */
  datatype Event =
    | Start(command: string)  // OnStart(command)
    | Error(err: string)      // OnError(err); the error value is kept as its message
    | Kill                    // OnKill()
    | Stop                    // OnStop()
    | Output(output: string)  // OnOutput(output)
    | RequestRestart          // OnRequestRestart()

  /** One callback invocation: `listener` was handed `event`. */
  datatype Notification<L> = Notification(listener: L, event: Event)

  /** The invocations one broadcast of `event` makes: one per registration, in order. */
  function Broadcast<L>(listeners: seq<L>, event: Event): (ns: seq<Notification<L>>)
    ensures |ns| == |listeners|
    ensures forall i :: 0 <= i < |ns| ==> ns[i].listener == listeners[i] && ns[i].event == event
  {
    if listeners == [] then []
    else [Notification(listeners[0], event)] + Broadcast(listeners[1..], event)
  }

  /** Broadcasting to two groups of listeners is broadcasting to the first, then the second. */
  lemma {:induction false} BroadcastAppend<L>(a: seq<L>, b: seq<L>, event: Event)
    ensures Broadcast(a + b, event) == Broadcast(a, event) + Broadcast(b, event)
  {
    if a != [] {
      assert (a + b)[1..] == a[1..] + b;
      BroadcastAppend(a[1..], b, event);
    }
  }

  /** A listener registered after the others is notified last, after all of them. */
  lemma AddedListenerIsLast<L>(listeners: seq<L>, l: L, event: Event)
    ensures Broadcast(listeners + [l], event) == Broadcast(listeners, event) + [Notification(l, event)]
  {
    BroadcastAppend(listeners, [l], event);
  }

  /** Each listener is notified once per registration: as often as it occurs in the list. */
  lemma {:induction false} NotifiedOncePerRegistration<L>(listeners: seq<L>, l: L, event: Event)
    ensures multiset(Broadcast(listeners, event))[Notification(l, event)] == multiset(listeners)[l]
  {
    if listeners != [] {
      NotifiedOncePerRegistration(listeners[1..], l, event);
      assert listeners == [listeners[0]] + listeners[1..];
    }
  }

  /** `mediator`: the registered listeners and, for the model, every callback made so far. */
  class Mediator<L> {
    var listeners: seq<L>
    var delivered: seq<Notification<L>>

    /** `NewMediator`: no listeners. */
    constructor ()
      ensures listeners == [] && delivered == []
    {
      listeners := [];
      delivered := [];
    }

    /** `AddListener`: appends `listener`; earlier registrations keep their order. */
    method AddListener(listener: L)
      modifies this
      ensures listeners == old(listeners) + [listener]
      ensures delivered == old(delivered)
    {
      listeners := listeners + [listener];
    }

    /** The loop every `Send*` runs: the callback for `event` on each listener in turn. */
    method Notify(event: Event)
      modifies this
      ensures listeners == old(listeners)
      ensures delivered == old(delivered) + Broadcast(listeners, event)
    {
      var ls := listeners;
      ghost var all := Broadcast(ls, event);
      ghost var before := delivered;
      for i := 0 to |ls|
        invariant listeners == ls
        invariant delivered == before + all[..i]
      {
        assert all[..i + 1] == all[..i] + [Notification(ls[i], event)];
        delivered := delivered + [Notification(ls[i], event)];
      }
      assert all[..|ls|] == all;
    }

    /** `SendStart`: `OnStart(command)` on every listener. */
    method SendStart(command: string)
      modifies this
      ensures listeners == old(listeners)
      ensures delivered == old(delivered) + Broadcast(listeners, Start(command))
    {
      Notify(Start(command));
    }

    /** `SendError`: `OnError(err)` on every listener. */
    method SendError(err: string)
      modifies this
      ensures listeners == old(listeners)
      ensures delivered == old(delivered) + Broadcast(listeners, Error(err))
    {
      Notify(Error(err));
    }

    /** `SendKill`: `OnKill()` on every listener. */
    method SendKill()
      modifies this
      ensures listeners == old(listeners)
      ensures delivered == old(delivered) + Broadcast(listeners, Kill)
    {
      Notify(Kill);
    }

    /** `SendStop`: `OnStop()` on every listener. */
    method SendStop()
      modifies this
      ensures listeners == old(listeners)
      ensures delivered == old(delivered) + Broadcast(listeners, Stop)
    {
      Notify(Stop);
    }

    /** `SendOutput`: `OnOutput(output)` on every listener. */
    method SendOutput(output: string)
      modifies this
      ensures listeners == old(listeners)
      ensures delivered == old(delivered) + Broadcast(listeners, Output(output))
    {
      Notify(Output(output));
    }

    /** `SendRequestRestart`: `OnRequestRestart()` on every listener. */
    method SendRequestRestart()
      modifies this
      ensures listeners == old(listeners)
      ensures delivered == old(delivered) + Broadcast(listeners, RequestRestart)
    {
      Notify(RequestRestart);
    }
  }
}
