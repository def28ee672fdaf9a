/** Permission grants and what covering one grant by another means (permissions/types.ts,
    delegation/protocol.ts). */
module Grants {
  import opened Options
  import opened Texts

  /** Milliseconds since the epoch; the source's numbers need not be whole. */
  type Time = real

  datatype PolicyResult = Allow | Deny | Escalate

  /** `notAfter` is tested for truthiness, so an absent limit and the limit 0 both mean "no expiry". */
  datatype Grant = Grant(action: Text, resource: Text, notAfter: Option<Time>) {
    predicate Limited() {
      notAfter.Some? && notAfter.value != 0.0
    }

    predicate ExpiredAt(now: Time) {
      Limited() && notAfter.value < now
    }

    /** The time test of `evaluate`, which is stricter than `ExpiredAt` at the last millisecond. */
    predicate LiveAt(now: Time) {
      Limited() ==> notAfter.value > now
    }
  }

  const STAR := Ascii("*")

  predicate Matches(pattern: Text, name: Text) {
    pattern == STAR || pattern == name
  }

  /** `sup` covers `sub`: action, resource and lifetime. */
  predicate Covers(sup: Grant, sub: Grant) {
    && Matches(sup.action, sub.action)
    && Matches(sup.resource, sub.resource)
    && (sup.Limited() ==> sub.Limited() && sub.notAfter.value <= sup.notAfter.value)
  }

  /** Whether a grant lets an action on a resource through at a time. */
  predicate Permits(g: Grant, action: Text, resource: Text, now: Time) {
    Matches(g.action, action) && Matches(g.resource, resource) && g.LiveAt(now)
  }

  /** A grant lets through what it names or `*` names, strictly before its limit if that is not 0. */
  lemma PermitsMeaning(g: Grant, action: Text, resource: Text, now: Time)
    ensures Permits(g, action, resource, now) <==>
      && (g.action == action || g.action == Ascii("*"))
      && (g.resource == resource || g.resource == Ascii("*"))
      && (g.notAfter.None? || g.notAfter.value == 0.0 || now < g.notAfter.value)
  {
  }

  /** A time at which a grant is live, and one at which it is not unless it has no limit. */
  function Before(g: Grant): Time {
    if g.Limited() then g.notAfter.value - 1.0 else 0.0
  }

  /** Covering is exact: one grant covers another just when it permits, at every time, every action on every
      resource that the other permits. */
  lemma CoversExactly(sup: Grant, sub: Grant)
    ensures Covers(sup, sub) <==>
      forall action, resource, now :: Permits(sub, action, resource, now) ==> Permits(sup, action, resource, now)
  {
    if forall action, resource, now :: Permits(sub, action, resource, now) ==> Permits(sup, action, resource, now) {
      var action, resource := Outside(sup.action, sub.action), Outside(sup.resource, sub.resource);
      OutsideMatches(sup.action, sub.action);
      OutsideMatches(sup.resource, sub.resource);
      assert Permits(sub, action, resource, Before(sub));
      if sup.Limited() {
        var now := sup.notAfter.value;
        assert Permits(sub, action, resource, now) ==> Permits(sup, action, resource, now);
      }
    }
  }

  /** A name that `sub` matches, and `sup` does too only if it matches all that `sub` does. */
  function Outside(sup: Text, sub: Text): Text {
    if sub == STAR then sup + [0] else sub
  }

  lemma OutsideMatches(sup: Text, sub: Text)
    ensures Matches(sub, Outside(sup, sub))
    ensures Matches(sup, Outside(sup, sub)) ==> Matches(sup, sub)
  {
    assert |sup + [0]| != |sup|;
  }

  /** Every grant of `subs` is covered by one of `sups`. */
  ghost predicate AllCovered(subs: seq<Grant>, sups: seq<Grant>) {
    forall sub | sub in subs :: exists sup :: sup in sups && Covers(sup, sub)
  }

  ghost predicate Permitted(grants: seq<Grant>, action: Text, resource: Text, now: Time) {
    exists g :: g in grants && Permits(g, action, resource, now)
  }

  lemma AllCoveredReflexive(grants: seq<Grant>)
    ensures AllCovered(grants, grants)
  {
    assert forall g | g in grants :: Covers(g, g);
  }

  lemma AllCoveredTransitive(a: seq<Grant>, b: seq<Grant>, c: seq<Grant>)
    requires AllCovered(a, b) && AllCovered(b, c)
    ensures AllCovered(a, c)
  {
    forall x | x in a ensures exists z :: z in c && Covers(z, x) {
      var y :| y in b && Covers(y, x);
      var z :| z in c && Covers(z, y);
      assert Covers(z, x);
    }
  }

  /** Covered grants permit no more than what covers them. */
  lemma CoveredPermitsLess(subs: seq<Grant>, sups: seq<Grant>, action: Text, resource: Text, now: Time)
    requires AllCovered(subs, sups) && Permitted(subs, action, resource, now)
    ensures Permitted(sups, action, resource, now)
  {
    var sub :| sub in subs && Permits(sub, action, resource, now);
    var sup :| sup in sups && Covers(sup, sub);
    assert Permits(sup, action, resource, now);
  }
}
