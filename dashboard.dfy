/** The dashboard page (`Dashboard`): a session gate in front of the health
    widgets, a sign-out button, and the open flag of the add-garment dialog. */
module DashboardPage {
  import opened Common
  import opened Store
  import GarmentPairing

  /** The page's `user` state together with the router's location. */
  datatype Gate = Gate(user: Option<User>, location: Route)

  /** The rule both the initial `getSession` and the `onAuthStateChange`
      listener apply to a session observation: no session sends the browser to
      /auth, a session records its user. */
  function Observe(g: Gate, obs: Observation): Gate {
    match obs
    case None => g.(location := AuthRoute)
    case Some(s) => g.(user := Some(s.user))
  }

  /** Observations delivered in order, first to last. */
  function ApplyAll(g: Gate, obs: seq<Observation>): Gate
    decreases |obs|
  {
    if obs == [] then g else Observe(ApplyAll(g, obs[..|obs| - 1]), obs[|obs| - 1])
  }

  /** Observing the same observation twice is the same as observing it once. */
  lemma ObserveIdempotent(g: Gate, obs: Observation)
    ensures Observe(Observe(g, obs), obs) == Observe(g, obs)
    ensures obs.None? ==> Observe(g, obs).location == AuthRoute && Observe(g, obs).user == g.user
    ensures obs.Some? ==> Observe(g, obs).user == Some(obs.value.user) && Observe(g, obs).location == g.location
  {
  }

  /** A re-delivered observation, initial fetch and listener reporting the
      same session one after the other, leaves the state it found. */
  lemma RedeliveryHarmless(g: Gate, obs: seq<Observation>, o: Observation)
    ensures ApplyAll(g, obs + [o, o]) == ApplyAll(g, obs + [o])
  {
    assert (obs + [o, o])[..|obs + [o, o]| - 1] == obs + [o];
    assert (obs + [o])[..|obs + [o]| - 1] == obs;
    ObserveIdempotent(ApplyAll(g, obs), o);
  }

  /** After a sequence of observations the user is the one the last session
      carried, or the initial one if none did: a later `null` session does
      not clear it. */
  lemma {:induction false} ApplyAllUser(g: Gate, obs: seq<Observation>)
    ensures (forall i :: 0 <= i < |obs| ==> obs[i].None?) ==> ApplyAll(g, obs).user == g.user
    ensures forall i :: 0 <= i < |obs| && obs[i].Some? && (forall j :: i < j < |obs| ==> obs[j].None?) ==>
      ApplyAll(g, obs).user == Some(obs[i].value.user)
    decreases |obs|
  {
    if obs != [] {
      var init := obs[..|obs| - 1];
      ApplyAllUser(g, init);
      assert forall i :: 0 <= i < |init| ==> init[i] == obs[i];
    }
  }

  /** After a sequence of observations the location is /auth exactly when it
      was already or some observation had no session. */
  lemma {:induction false} ApplyAllLocation(g: Gate, obs: seq<Observation>)
    ensures ApplyAll(g, obs).location == AuthRoute <==>
      g.location == AuthRoute || exists i :: 0 <= i < |obs| && obs[i].None?
    ensures (forall i :: 0 <= i < |obs| ==> obs[i].Some?) ==> ApplyAll(g, obs).location == g.location
    decreases |obs|
  {
    if obs != [] {
      var init := obs[..|obs| - 1];
      ApplyAllLocation(g, init);
      assert forall i :: 0 <= i < |init| ==> init[i] == obs[i];
      if exists i :: 0 <= i < |init| && init[i].None? {
        var i :| 0 <= i < |init| && init[i].None?;
        assert obs[i].None?;
      }
    }
  }

  class DashboardView {
    var user: Option<User>
    var location: Route
    /** Whether the `onAuthStateChange` subscription is still live. */
    var subscribed: bool
    var toasts: seq<Toast>
    /** The dialog whose `open` field is the page's `isAddGarmentOpen`. */
    const addGarment: GarmentPairing.AddGarmentDialog

    function GateState(): Gate
      reads this
    {
      Gate(user, location)
    }

    /** The page mounts at /dashboard with no user and subscribes. */
    constructor ()
      ensures GateState() == Gate(None, DashboardRoute) && subscribed && toasts == []
      ensures fresh(addGarment) && !addGarment.open
      ensures addGarment.Snapshot() == GarmentPairing.Initial
    {
      user, location, subscribed, toasts := None, DashboardRoute, true, [];
      addGarment := new GarmentPairing.AddGarmentDialog(false);
    }

    /** Nothing is rendered while `user` is null. */
    predicate Rendered()
      reads this
    {
      user.Some?
    }

    /** The resolution of the initial `getSession`. */
    method InitialSession(obs: Observation)
      modifies this
      ensures GateState() == Observe(old(GateState()), obs)
      ensures subscribed == old(subscribed) && toasts == old(toasts)
    {
      if obs.None? {
        location := AuthRoute;
      } else {
        user := Some(obs.value.user);
      }
    }

    /** An `onAuthStateChange` notification; none reaches a torn-down page. */
    method ListenerEvent(obs: Observation)
      modifies this
      ensures GateState() == if old(subscribed) then Observe(old(GateState()), obs) else old(GateState())
      ensures subscribed == old(subscribed) && toasts == old(toasts)
    {
      if subscribed {
        InitialSession(obs);
      }
    }

    /** The effect's cleanup unsubscribes the listener. */
    method Teardown()
      modifies this
      ensures !subscribed && GateState() == old(GateState()) && toasts == old(toasts)
    {
      subscribed := false;
    }

    /** `handleSignOut`, behind a button that exists only once the page
        renders: the sign-out request, then the toast and /auth; the
        request's own result is ignored. */
    method HandleSignOut(auth: AuthClient)
      requires Rendered()
      modifies this, auth
      ensures auth.requests == old(auth.requests) + [SignOut]
      ensures location == AuthRoute && user == old(user)
      ensures toasts == old(toasts) + [Info("Signed out successfully")]
      ensures subscribed == old(subscribed)
    {
      auth.Send(SignOut);
      toasts := toasts + [Info("Signed out successfully")];
      location := AuthRoute;
    }

    /** The "Add Garment" button, which exists only once the page renders,
        opens the dialog; from then on the dialog's `onOpenChange` writes the flag. */
    method AddGarmentClicked()
      requires Rendered()
      modifies addGarment
      ensures addGarment.open
      ensures addGarment.Snapshot() == old(addGarment.Snapshot())
      ensures addGarment.pendingTimeouts == old(addGarment.pendingTimeouts)
      ensures addGarment.toasts == old(addGarment.toasts)
    {
      addGarment.ParentSetsOpen(true);
    }
  }
}
