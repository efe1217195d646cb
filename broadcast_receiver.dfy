/** A broadcast receiver that runs a preset action on every intent it receives
    and registers or unregisters itself with the application context when its
    `IsRegistered` property changes (ActionReservedBroadcastReceiver).

    The application context is represented only by the calls made on it, kept
    as a ghost trace; the action delegate is represented by a handle, and each
    of its invocations is kept as a ghost trace too. */
module BroadcastReceivers {

  datatype Option<T> = None | Some(value: T)

  /** The intent information a filter matches (here, its action string). */
  datatype IntentFilter = IntentFilter(action: string)

  datatype Intent = Intent(action: string)

  /** The delegate run when an intent arrives. */
  datatype ActionHandle = ActionHandle(id: nat)

  /** A call made on the application context. */
  datatype ContextCall = Register(filter: IntentFilter) | Unregister

  /** One run of the delegate. */
  datatype Invocation = Invocation(action: ActionHandle, intent: Intent)

  /** The trace starts with a registration and then alternates between
      registering and unregistering. */
  ghost predicate Alternating(calls: seq<ContextCall>) {
    forall i :: 0 <= i < |calls| ==> (calls[i].Register? <==> i % 2 == 0)
  }

  /** The receiver is attached to the context after `calls`: the last call
      was a registration. */
  ghost predicate Attached(calls: seq<ContextCall>) {
    |calls| > 0 && calls[|calls| - 1].Register?
  }

  /** The calls the `IsRegistered` setter makes when asked to go from
      `current` to `value`. */
  function SetterCalls(current: bool, value: bool, filter: IntentFilter): seq<ContextCall> {
    if value == current then []
    else if value then [Register(filter)]
    else [Unregister]
  }

  ghost function Registrations(calls: seq<ContextCall>): nat {
    if calls == [] then 0
    else Registrations(calls[..|calls| - 1]) + (if calls[|calls| - 1].Register? then 1 else 0)
  }

  ghost function Unregistrations(calls: seq<ContextCall>): nat {
    if calls == [] then 0
    else Unregistrations(calls[..|calls| - 1]) + (if calls[|calls| - 1].Unregister? then 1 else 0)
  }

  /** A setter call from an alternating trace whose flag is in step with it
      keeps the trace alternating, and afterwards the receiver is attached
      exactly when the assigned value is true. */
  lemma SetterKeepsAlternation(calls: seq<ContextCall>, current: bool, value: bool, filter: IntentFilter)
    requires Alternating(calls) && current == Attached(calls)
    ensures Alternating(calls + SetterCalls(current, value, filter))
    ensures Attached(calls + SetterCalls(current, value, filter)) == value
  {
    var next := calls + SetterCalls(current, value, filter);
    if value != current {
      assert current == (|calls| % 2 == 1) by {
        if |calls| > 0 { assert calls[|calls| - 1].Register? <==> (|calls| - 1) % 2 == 0; }
      }
      forall i | 0 <= i < |next| ensures next[i].Register? <==> i % 2 == 0 {
        if i < |calls| { assert next[i] == calls[i]; }
      }
    }
  }

  /** Assigning the same value twice makes the calls of assigning it once. */
  lemma SetterIsIdempotent(current: bool, value: bool, filter: IntentFilter)
    ensures SetterCalls(current, value, filter) + SetterCalls(value, value, filter)
            == SetterCalls(current, value, filter)
    ensures |SetterCalls(current, value, filter)| <= 1
  {
  }

  /** In an alternating trace no two registrations and no two
      unregistrations follow each other. */
  lemma NoDoubleRegistration(calls: seq<ContextCall>, i: nat)
    requires Alternating(calls) && i + 1 < |calls|
    ensures calls[i].Register? != calls[i + 1].Register?
  {
    assert calls[i].Register? <==> i % 2 == 0;
    assert calls[i + 1].Register? <==> (i + 1) % 2 == 0;
  }

  /** In an alternating trace registrations exceed unregistrations by one
      while attached and equal them otherwise. */
  lemma {:induction false} RegistrationBalance(calls: seq<ContextCall>)
    requires Alternating(calls)
    ensures Registrations(calls) == Unregistrations(calls) + (if Attached(calls) then 1 else 0)
  {
    if calls != [] {
      var prefix := calls[..|calls| - 1];
      assert Alternating(prefix) by {
        forall i | 0 <= i < |prefix| ensures prefix[i].Register? <==> i % 2 == 0 {
          assert prefix[i] == calls[i];
        }
      }
      RegistrationBalance(prefix);
      if |prefix| > 0 {
        NoDoubleRegistration(calls, |prefix| - 1);
        assert prefix[|prefix| - 1] == calls[|prefix| - 1];
      }
    }
  }

  class ActionReservedBroadcastReceiver {
    /** The delegate to run; the source allows it to be null. */
    const receiver: Option<ActionHandle>
    const intentFilter: IntentFilter
    var isRegistered: bool
    /** The calls made on the application context, oldest first. */
    ghost var contextCalls: seq<ContextCall>
    /** The runs of the delegate, oldest first. */
    ghost var invocations: seq<Invocation>

    /** The flag says whether the receiver is attached, and the context only
        ever sees registrations and unregistrations in turn, each registration
        with this receiver's filter. */
    ghost predicate Valid()
      reads this
    {
      Alternating(contextCalls) && isRegistered == Attached(contextCalls)
      && forall i :: 0 <= i < |contextCalls| && contextCalls[i].Register? ==> contextCalls[i].filter == intentFilter
    }

    /** A new receiver is unregistered, keeps the action and a filter for
        `filter`, and has made no calls. */
    constructor (action: Option<ActionHandle>, filter: string)
      ensures Valid()
      ensures receiver == action && intentFilter == IntentFilter(filter)
      ensures !isRegistered && contextCalls == [] && invocations == []
    {
      receiver := action;
      intentFilter := IntentFilter(filter);
      isRegistered := false;
      contextCalls := [];
      invocations := [];
    }

    /** The `IsRegistered` getter: true exactly when the last call on the
        context was a registration. */
    method GetIsRegistered() returns (registered: bool)
      requires Valid()
      ensures registered == Attached(contextCalls)
      ensures registered <==> Registrations(contextCalls) > Unregistrations(contextCalls)
    {
      RegistrationBalance(contextCalls);
      registered := isRegistered;
    }

    /** The `IsRegistered` setter: registers or unregisters only when the
        value changes, then records the value. */
    method SetIsRegistered(value: bool)
      requires Valid()
      modifies this`isRegistered, this`contextCalls
      ensures Valid()
      ensures isRegistered == value
      ensures contextCalls == old(contextCalls) + SetterCalls(old(isRegistered), value, intentFilter)
    {
      SetterKeepsAlternation(contextCalls, isRegistered, value, intentFilter);
      if value != isRegistered {
        if value {
          contextCalls := contextCalls + [Register(intentFilter)];
        } else {
          contextCalls := contextCalls + [Unregister];
        }
        isRegistered := value;
      }
    }

    /** `OnReceive`: runs the delegate once with the intent when there is
        one, and does nothing otherwise. The context argument is unused by
        the source and not modelled. */
    method OnReceive(intent: Intent)
      modifies this`invocations
      ensures invocations == old(invocations)
              + (if receiver.Some? then [Invocation(receiver.value, intent)] else [])
    {
      if receiver.Some? {
        invocations := invocations + [Invocation(receiver.value, intent)];
      }
    }
  }
}
