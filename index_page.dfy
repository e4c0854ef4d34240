/** The landing page (`Index`): a visitor who already holds a session is sent
    to the dashboard; two buttons lead to the auth page. */
module IndexPage {
  import opened Common

  /** The redirect rule both observation sources apply: a session means
      "go to /dashboard", no session means "stay". */
  function Redirect(obs: Observation): (r: Option<Route>)
    ensures r.Some? <==> obs.Some?
    ensures r.Some? ==> r.value == DashboardRoute && Path(r.value) == "/dashboard"
  {
    if obs.Some? then Some(DashboardRoute) else None
  }

  /** The location after one observation. */
  function Follow(location: Route, obs: Observation): Route {
    match Redirect(obs)
    case None => location
    case Some(target) => target
  }

  /** The location after observations delivered in order. */
  function FollowAll(location: Route, obs: seq<Observation>): Route
    decreases |obs|
  {
    if obs == [] then location else Follow(FollowAll(location, obs[..|obs| - 1]), obs[|obs| - 1])
  }

  /** Following the same observation twice targets the same destination as once. */
  lemma FollowIdempotent(location: Route, obs: Observation)
    ensures Follow(Follow(location, obs), obs) == Follow(location, obs)
  {
  }

  /** However the two sources interleave, the visitor ends on the dashboard
      exactly when some observation carried a session, and otherwise stays. */
  lemma {:induction false} FollowAllSpec(location: Route, obs: seq<Observation>)
    ensures (exists i :: 0 <= i < |obs| && obs[i].Some?) ==> FollowAll(location, obs) == DashboardRoute
    ensures (forall i :: 0 <= i < |obs| ==> obs[i].None?) ==> FollowAll(location, obs) == location
    decreases |obs|
  {
    if obs != [] {
      var init := obs[..|obs| - 1];
      FollowAllSpec(location, init);
      assert forall i :: 0 <= i < |init| ==> init[i] == obs[i];
      if obs[|obs| - 1].None? && exists i :: 0 <= i < |obs| && obs[i].Some? {
        var i :| 0 <= i < |obs| && obs[i].Some?;
        assert i < |init| && init[i].Some?;
      }
    }
  }

  class IndexView {
    var location: Route
    /** Whether the `onAuthStateChange` subscription is still live. */
    var subscribed: bool

    constructor ()
      ensures location == Landing && subscribed
    {
      location, subscribed := Landing, true;
    }

    /** An `onAuthStateChange` notification; none reaches a torn-down page. */
    method ListenerEvent(obs: Observation)
      modifies this
      ensures location == if old(subscribed) then Follow(old(location), obs) else old(location)
      ensures subscribed == old(subscribed)
    {
      if subscribed {
        InitialSession(obs);
      }
    }

    /** The resolution of the initial `getSession`. */
    method InitialSession(obs: Observation)
      modifies this
      ensures location == Follow(old(location), obs)
      ensures subscribed == old(subscribed)
    {
      var target := Redirect(obs);
      if target.Some? {
        location := target.value;
      }
    }

    /** The effect's cleanup unsubscribes the listener. */
    method Teardown()
      modifies this
      ensures !subscribed && location == old(location)
    {
      subscribed := false;
    }

    /** The "Sign In" button in the navigation bar. */
    method SignInClicked()
      modifies this
      ensures location == AuthRoute && subscribed == old(subscribed)
    {
      location := AuthRoute;
    }

    /** The "Get Started" button. */
    method GetStartedClicked()
      modifies this
      ensures location == AuthRoute && subscribed == old(subscribed)
    {
      location := AuthRoute;
    }
  }
}
