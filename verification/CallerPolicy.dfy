/**
  Who may call what on the internal listener: module identities by their profile, the
  gateway's own methods, the service's own REST front as a hop, and methods open only to
  named certificates.
*/
module CallerPolicy {
  import opened Outcomes
  import Text

  datatype Profile = Edge | ModuleWriter | DataPlane

  const PROFILES := [Edge, ModuleWriter, DataPlane]

  const GATEWAY := "api-gateway"

  /** A recognised module identity. */
  datatype Identity = Identity(service: string, profile: Profile)

  /** What the listener knows of a caller; only a verified, named certificate is recognised as a module. */
  datatype Caller = Caller(san: string, verified: bool, identity: Option<Identity>)

  ghost predicate Possible(c: Caller) {
    c.identity.Some? ==> c.verified && c.san != ""
  }

  datatype Policy = Policy(
    production: bool,
    gatewayOnly: set<string>,
    sanRestricted: set<string>,
    sanAllow: map<string, set<string>>,
    ownFrontHop: string,
    profiles: map<Profile, set<string>>,
    hopMethods: set<string>)

  function MethodsOf(profiles: map<Profile, set<string>>, p: Profile): set<string> {
    if p in profiles then profiles[p] else {}
  }

  /** The methods every profile may call. */
  ghost predicate CommonMethod(profiles: map<Profile, set<string>>, m: string) {
    forall p :: m in MethodsOf(profiles, p)
  }

  /** The hop's limit: start from the first profile, strike out what a later one lacks. */
  method HopMethodSet(profiles: map<Profile, set<string>>) returns (out: set<string>)
    ensures forall m :: m in out <==> CommonMethod(profiles, m)
  {
    out := {};
    var first := true;
    for i := 0 to |PROFILES|
      invariant first <==> i == 0
      invariant i > 0 ==> forall m :: m in out <==> forall j :: 0 <= j < i ==> m in MethodsOf(profiles, PROFILES[j])
    {
      var listed := MethodsOf(profiles, PROFILES[i]);
      if first {
        out := listed;
        first := false;
        continue;
      }
      ghost var before := out;
      var left := out;
      while left != {}
        invariant left <= before
        invariant forall m :: m in out <==> m in before && (m in left || m in listed)
        decreases left
      {
        var m :| m in left;
        if m !in listed {
          out := out - {m};
        }
        left := left - {m};
      }
    }
    forall m ensures m in out <==> CommonMethod(profiles, m) {
      assert PROFILES[0] == Edge && PROFILES[1] == ModuleWriter && PROFILES[2] == DataPlane;
      if m in out {
        forall p ensures m in MethodsOf(profiles, p) {
          match p
          case Edge => assert m in MethodsOf(profiles, PROFILES[0]);
          case ModuleWriter => assert m in MethodsOf(profiles, PROFILES[1]);
          case DataPlane => assert m in MethodsOf(profiles, PROFILES[2]);
        }
      }
    }
  }

  method NewCallerPolicy(production: bool, gatewayOnly: set<string>, sanRestricted: set<string>,
                         profiles: map<Profile, set<string>>)
    returns (policy: Policy)
    ensures Built(policy)
    ensures policy.production == production && policy.gatewayOnly == gatewayOnly && policy.sanRestricted ==
            sanRestricted
    ensures policy.sanAllow == map[] && policy.ownFrontHop == "" && policy.profiles == profiles
  {
    var hop := HopMethodSet(profiles);
    policy := Policy(production, gatewayOnly, sanRestricted, map[], "", profiles, hop);
  }

  ghost predicate Built(p: Policy) {
    forall m :: m in p.hopMethods <==> CommonMethod(p.profiles, m)
  }

  /** The certificate names a list allows: trimmed, blanks dropped. */
  ghost predicate Names(sans: seq<string>, san: string) {
    san != "" && exists i :: 0 <= i < |sans| && Text.Trim(sans[i]) == san
  }

  method AllowedNames(sans: seq<string>) returns (allowed: set<string>)
    ensures forall san :: san in allowed <==> Names(sans, san)
  {
    allowed := {};
    for i := 0 to |sans|
      invariant forall san :: san in allowed <==> Names(sans[..i], san)
    {
      var s := Text.Trim(sans[i]);
      NamesOneMore(sans, i);
      if s != "" {
        allowed := allowed + {s};
      }
    }
    assert sans[..|sans|] == sans;
  }

  method WithSANAllowlist(p: Policy, perRPC: map<string, seq<string>>) returns (q: Policy)
    ensures q == p.(sanAllow := q.sanAllow)
    ensures q.sanAllow.Keys == perRPC.Keys
    ensures forall m, san :: m in perRPC ==> (san in q.sanAllow[m] <==> Names(perRPC[m], san))
  {
    if |perRPC| == 0 {
      assert perRPC.Keys == {};
      return p.(sanAllow := map[]);
    }
    var out: map<string, set<string>> := map[];
    var left := perRPC.Keys;
    while left != {}
      invariant left <= perRPC.Keys && out.Keys == perRPC.Keys - left
      invariant forall m, san :: m in out ==> (san in out[m] <==> Names(perRPC[m], san))
      decreases left
    {
      var m :| m in left;
      var allowed := AllowedNames(perRPC[m]);
      out := out[m := allowed];
      left := left - {m};
    }
    q := p.(sanAllow := out);
  }

  lemma NamesOneMore(sans: seq<string>, i: nat)
    requires i < |sans|
    ensures forall san :: Names(sans[..i + 1], san) <==>
            Names(sans[..i], san) || (san != "" && san == Text.Trim(sans[i]))
  {
    forall san
      ensures Names(sans[..i + 1], san) <==> Names(sans[..i], san) || (san != "" && san == Text.Trim(sans[i]))
    {
      if Names(sans[..i], san) {
        var j :| 0 <= j < i && Text.Trim(sans[..i][j]) == san;
        assert Text.Trim(sans[..i + 1][j]) == san;
      }
      if san != "" && san == Text.Trim(sans[i]) {
        assert Text.Trim(sans[..i + 1][i]) == san;
      }
      if Names(sans[..i + 1], san) {
        var j :| 0 <= j < i + 1 && Text.Trim(sans[..i + 1][j]) == san;
        assert j < i ==> Text.Trim(sans[..i][j]) == san;
      }
    }
  }

  function WithOwnFrontHop(p: Policy, san: string): Policy {
    p.(ownFrontHop := Text.Trim(san))
  }

  predicate IsOwnFrontHop(p: Policy, san: string) {
    p.ownFrontHop != "" && san == p.ownFrontHop
  }

  /** May this caller call this method. */
  predicate Allow(p: Policy, c: Caller, m: string) {
    if m in p.sanRestricted then
      c.verified && c.san != "" && m in p.sanAllow && c.san in p.sanAllow[m]
    else
      var service := if c.identity.Some? then c.identity.value.service else "";
      if !(c.identity.Some? || (c.verified && IsOwnFrontHop(p, c.san))) then !p.production
      else if c.identity.Some? && m !in MethodsOf(p.profiles, c.identity.value.profile) then !p.production
      else if c.identity.None? && m !in p.hopMethods then !p.production
      else if m in p.gatewayOnly && service != GATEWAY then !p.production
      else true
  }

  // ---------------------------------------------------------------------------------------
  // What the policy promises
  // ---------------------------------------------------------------------------------------

  /** The service's own front, and nobody's module. */
  ghost predicate IsHop(p: Policy, c: Caller) {
    c.verified && c.identity.None? && IsOwnFrontHop(p, c.san)
  }

  /** Every module identity other than the gateway's, whatever its profile, may call the method. */
  ghost predicate EveryModuleMay(p: Policy, m: string) {
    forall c :: Possible(c) && c.identity.Some? && c.identity.value.service != GATEWAY ==> Allow(p, c, m)
  }

  /**
    In production the HTTP lane is as wide as the narrowest gRPC lane: outside the restricted
    methods the hop may call exactly what every non-gateway module identity of every profile may.
  */
  lemma HopIsTheCommonLane(p: Policy, hop: Caller, m: string)
    requires Built(p) && p.production && IsHop(p, hop) && m !in p.sanRestricted
    ensures Allow(p, hop, m) <==> EveryModuleMay(p, m)
    ensures Allow(p, hop, m) <==> CommonMethod(p.profiles, m) && m !in p.gatewayOnly
  {
    if EveryModuleMay(p, m) {
      forall q ensures m in MethodsOf(p.profiles, q) && m !in p.gatewayOnly {
        var c := Caller("spiffe://module", true, Some(Identity("vpc", q)));
        assert |"vpc"| != |GATEWAY|;
        assert Possible(c) && Allow(p, c, m);
      }
      assert m in MethodsOf(p.profiles, Edge) && m !in p.gatewayOnly;
    }
  }

  /** The hop never has a method some recognised identity lacks, and never a gateway-only one. */
  lemma HopIsNeverWider(p: Policy, hop: Caller, c: Caller, m: string)
    requires Built(p) && p.production && IsHop(p, hop) && c.identity.Some? && m !in p.sanRestricted && Allow(p, hop, m)
    ensures Allow(p, c, m) && m !in p.gatewayOnly
  {
    assert CommonMethod(p.profiles, m);
  }

  /**
    Naming the front opens one lane and no other: in production, outside the restricted methods, a
    caller that is nobody's module gets through exactly when it verifiably bears the configured
    name, which a blank configuration gives to no one, and the method is common to all modules.
  */
  lemma NamedFrontIsTheOnlyStranger(p: Policy, san: string, c: Caller, m: string)
    requires Built(p) && p.production && m !in p.sanRestricted && c.identity.None?
    ensures Allow(WithOwnFrontHop(p, san), c, m) <==>
            c.verified && Text.Trim(san) != "" && c.san == Text.Trim(san) && EveryModuleMay(p, m)
  {
    var q := WithOwnFrontHop(p, san);
    if IsHop(q, c) {
      HopIsTheCommonLane(q, c, m);
      forall d | Possible(d) && d.identity.Some? && d.identity.value.service != GATEWAY
        ensures Allow(p, d, m) <==> Allow(q, d, m) {}
      assert EveryModuleMay(q, m) <==> EveryModuleMay(p, m);
    }
  }

  /**
    The lane of one module identity in production, outside the restricted methods: what its own
    profile lists, and of the gateway's own methods only as the gateway.
  */
  lemma ModuleLaneExactly(p: Policy, c: Caller, m: string)
    requires p.production && m !in p.sanRestricted && c.identity.Some?
    ensures Allow(p, c, m) <==>
            && c.identity.value.profile in p.profiles && m in p.profiles[c.identity.value.profile]
            && (m in p.gatewayOnly ==> c.identity.value.service == "api-gateway")
  {}

  /** Outside production everything but the restricted methods is open to everybody. */
  lemma DevLetsThrough(p: Policy, c: Caller, m: string)
    requires !p.production && m !in p.sanRestricted
    ensures Allow(p, c, m)
  {}

  /** A restricted method is open exactly to the verified names on its list, in any mode. */
  lemma RestrictedExactly(p: Policy, c: Caller, m: string)
    requires m in p.sanRestricted
    ensures Allow(p, c, m) <==> c.verified && c.san != "" && m in p.sanAllow && c.san in p.sanAllow[m]
  {}

  /** Production only tightens, and a restricted method does not depend on the mode at all. */
  lemma ProductionOnlyTightens(p: Policy, c: Caller, m: string)
    ensures Allow(p.(production := true), c, m) ==> Allow(p.(production := false), c, m)
    ensures m in p.sanRestricted ==> (Allow(p.(production := true), c, m) <==> Allow(p.(production := false), c, m))
  {}

  /**
    A restricted method configured by a list is open exactly to the verified certificates the list
    names; left out of the configuration it is open to nobody, in any mode.
  */
  method ConfigureRestricted(p: Policy, perRPC: map<string, seq<string>>) returns (q: Policy)
    ensures forall c, m :: m in q.sanRestricted && m in perRPC ==>
              (Allow(q, c, m) <==> c.verified && Names(perRPC[m], c.san))
    ensures forall c, m :: m in q.sanRestricted && m !in perRPC ==> !Allow(q, c, m)
    ensures forall c, m :: m !in q.sanRestricted ==> (Allow(q, c, m) <==> Allow(p, c, m))
    ensures q.sanRestricted == p.sanRestricted
  {
    q := WithSANAllowlist(p, perRPC);
  }
}
