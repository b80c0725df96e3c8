/** Router advertisements as values and as the object that plugins fill in (package ndp). */
module Ndp {
  import opened Netip
  import opened Addresser

  // Durations and instants are in nanoseconds.
  const SECOND := 1_000_000_000
  const MILLISECOND := 1_000_000

  /** The lifetime that never ends: the largest 32-bit number of seconds. */
  const INFINITY := 0xffff_ffff * SECOND

  /** An option. Options that verifyRAs compares by pointer carry the identity of their object. */
  datatype NdpOption =
    | MTU(ref: nat, mtu: nat)
    | PrefixInformation(prefixLength: nat, onLink: bool, autonomous: bool, validLifetime: int,
        preferredLifetime: int, prefix: Addr)
    | RouteInformation(routeLength: nat, preference: Preference, routeLifetime: int, route: Addr)
    | RecursiveDNSServer(lifetime: int, servers: seq<Addr>)
    | DNSSearchList(lifetime: int, domainNames: seq<string>)
    | LinkLayerAddress(addr: seq<bv8>)
    | CaptivePortal(ref: nat, uri: string)
    | PREF64(pref64: Prefix, lifetime: int)

  datatype Base = Base(hopLimit: nat, managed: bool, otherConfig: bool, preference: Preference,
                       routerLifetime: int, reachableTime: int, retransmitTimer: int)

  datatype RA = RA(base: Base, options: seq<NdpOption>)

  class RouterAdvertisement {
    var base: Base
    var options: seq<NdpOption>

    constructor (base: Base)
      ensures this.base == base && options == []
    {
      this.base := base;
      options := [];
    }
  }
}

/** Plugins and what they add to a router advertisement (package plugin). */
module Plugins {
  import opened Netip
  import opened Wrappers
  import opened Addresser
  import opened Ndp
  import opened Selection
  import Rdnss

  datatype Plugin =
    | PrefixPlugin(auto: bool, prefix: Prefix, onLink: bool, autonomous: bool, validLifetime: int, preferredLifetime: int,
                   epoch: Option<int>, deprecated: bool)
    | RoutePlugin(auto: bool, prefix: Prefix, preference: Preference, lifetime: int, epoch: Option<int>, deprecated: bool)
    | RDNSSPlugin(auto: bool, lifetime: int, servers: seq<Addr>)
    | DNSSLPlugin(lifetime: int, domainNames: seq<string>)
    | MTUPlugin(mtu: nat)
    | LLAPlugin
    | CaptivePortalPlugin(ref: nat, uri: string)
    | PREF64Plugin(prefix: Prefix, lifetime: int)

  /** What a plugin sees of the system when it is applied: the clock, the interface's addresses, the
      loopback routes, the hardware address if any, and the identity of the next object allocated. */
  datatype Env = Env(now: int, addrs: Fetch<seq<IP>>, routes: Fetch<seq<Route>>, hardwareAddr: Option<seq<bv8>>,
      newRef: nat)

  /** The plugin was prepared, and has an epoch if it counts down: the source panics otherwise. */
  predicate Ready(p: Plugin, env: Env) {
    && ((p.PrefixPlugin? || p.RDNSSPlugin?) && p.auto ==> !env.addrs.Unset?)
    && (p.PrefixPlugin? || p.RoutePlugin? ==> p.deprecated ==> p.epoch.Some?)
  }

  /** Time left at `now` of a lifetime that started at the epoch. */
  function Countdown(epoch: int, lifetime: int, now: int): int {
    if now >= epoch + lifetime then 0 else epoch + lifetime - now
  }

  function PrefixLifetimes(p: Plugin, now: int): (int, int)
    requires p.PrefixPlugin? && (p.deprecated ==> p.epoch.Some?)
  {
    if !p.deprecated then (p.validLifetime, p.preferredLifetime) else
    (Countdown(p.epoch.value, p.validLifetime, now), Countdown(p.epoch.value, p.preferredLifetime, now))
  }

  function RouteLifetime(p: Plugin, now: int): int
    requires p.RoutePlugin? && (p.deprecated ==> p.epoch.Some?)
  {
    if !p.deprecated then p.lifetime else Countdown(p.epoch.value, p.lifetime, now)
  }

  function PrefixOption(p: Plugin, now: int, pfx: Prefix): NdpOption
    requires p.PrefixPlugin? && (p.deprecated ==> p.epoch.Some?)
  {
    var (valid, pref) := PrefixLifetimes(p, now);
    PrefixInformation(pfx.bits, p.onLink, p.autonomous, valid, pref, pfx.addr)
  }

  function RouteOption(p: Plugin, now: int, rt: Prefix): NdpOption
    requires p.RoutePlugin? && (p.deprecated ==> p.epoch.Some?)
  {
    RouteInformation(rt.bits, p.preference, RouteLifetime(p, now), rt.addr)
  }

  /** The options a plugin contributes, or why it cannot. */
  function Outputs(p: Plugin, env: Env): Result<seq<NdpOption>, Error>
    requires Ready(p, env)
  {
    match p
    case PrefixPlugin(auto, prefix, _, _, _, _, _, _) =>
      if auto && env.addrs.Failed? then Err(AddrsFailed) else
      var ps := if auto then AutoPrefixes(env.addrs.value, prefix.bits) else [prefix];
      Ok(seq(|ps|, i requires 0 <= i < |ps| => PrefixOption(p, env.now, ps[i])))
    case RoutePlugin(auto, prefix, _, _, _, _) =>
      if auto && (env.routes.Unset? || env.addrs.Unset?) then Err(NotPrepared)
      else if auto && env.routes.Failed? then Err(RoutesFailed)
      else if auto && env.addrs.Failed? then Err(AddrsFailed) else
      var ps := if auto then AutoRoutes(env.routes.value, env.addrs.value) else [prefix];
      Ok(seq(|ps|, i requires 0 <= i < |ps| => RouteOption(p, env.now, ps[i])))
    case RDNSSPlugin(auto, lifetime, servers) =>
      if !auto then Ok([RecursiveDNSServer(lifetime, servers)]) else
      (match Rdnss.Server(env.addrs)
       case Err(e) => Err(e)
       case Ok(server) => Ok([RecursiveDNSServer(lifetime, [server] + servers)]))
    case DNSSLPlugin(lifetime, names) => Ok([DNSSearchList(lifetime, names)])
    case MTUPlugin(mtu) => Ok([MTU(env.newRef, mtu % 0x1_0000_0000)])
    case LLAPlugin => Ok(if env.hardwareAddr.None? then [] else [LinkLayerAddress(env.hardwareAddr.value)])
    case CaptivePortalPlugin(ref, uri) => Ok([CaptivePortal(ref, uri)])
    case PREF64Plugin(prefix, lifetime) => Ok([PREF64(prefix, lifetime)])
  }

  method ApplyPrefixes(p: Plugin, now: int, prefixes: seq<Prefix>, ra: RouterAdvertisement)
    requires p.PrefixPlugin? && (p.deprecated ==> p.epoch.Some?)
    modifies ra`options
    ensures ra.options == old(ra.options) +
                          seq(|prefixes|, i requires 0 <= i < |prefixes| => PrefixOption(p, now, prefixes[i]))
  {
    var (valid, pref) := PrefixLifetimes(p, now);
    var opts: seq<NdpOption> := [];
    for i := 0 to |prefixes|
      invariant opts == seq(i, k requires 0 <= k < i => PrefixOption(p, now, prefixes[k]))
    {
      var pfx := prefixes[i];
      opts := opts + [PrefixInformation(pfx.bits, p.onLink, p.autonomous, valid, pref, pfx.addr)];
    }
    ra.options := ra.options + opts;
  }

  method ApplyRoutes(p: Plugin, now: int, routes: seq<Prefix>, ra: RouterAdvertisement)
    requires p.RoutePlugin? && (p.deprecated ==> p.epoch.Some?)
    modifies ra`options
    ensures ra.options == old(ra.options) + seq(|routes|, i requires 0 <= i < |routes| => RouteOption(p, now, routes[i]))
  {
    var lifetime := RouteLifetime(p, now);
    for i := 0 to |routes|
      invariant ra.options == old(ra.options) + seq(i, k requires 0 <= k < i => RouteOption(p, now, routes[k]))
    {
      var rt := routes[i];
      ra.options := ra.options + [RouteInformation(rt.bits, p.preference, lifetime, rt.addr)];
    }
  }

  /** Appends the plugin's options in place; on failure nothing changes. No base field is in the frame. */
  method Apply(p: Plugin, env: Env, ra: RouterAdvertisement) returns (err: Option<Error>)
    requires Ready(p, env)
    modifies ra`options
    ensures match Outputs(p, env)
            case Ok(opts) => err.None? && ra.options == old(ra.options) + opts
            case Err(e) => err == Some(e) && ra.options == old(ra.options)
  {
    err := None;
    match p
    case PrefixPlugin(auto, prefix, _, _, _, _, _, _) =>
      var prefixes := [prefix];
      if auto {
        var r := CurrentPrefixes(env.addrs, prefix.bits);
        if r.Err? {
          return Some(r.error);
        }
        prefixes := r.value;
      }
      ApplyPrefixes(p, env.now, prefixes, ra);
    case RoutePlugin(auto, prefix, _, _, _, _) =>
      var routes := [prefix];
      if auto {
        var r := CurrentRoutes(env.routes, env.addrs);
        if r.Err? {
          return Some(r.error);
        }
        routes := r.value;
      }
      ApplyRoutes(p, env.now, routes, ra);
    case RDNSSPlugin(auto, lifetime, servers) =>
      if !auto {
        ra.options := ra.options + [RecursiveDNSServer(lifetime, servers)];
      } else {
        var r := Rdnss.CurrentServer(env.addrs);
        if r.Err? {
          return Some(r.error);
        }
        ra.options := ra.options + [RecursiveDNSServer(lifetime, [r.value] + servers)];
      }
    case DNSSLPlugin(lifetime, names) =>
      ra.options := ra.options + [DNSSearchList(lifetime, names)];
    case MTUPlugin(mtu) =>
      ra.options := ra.options + [MTU(env.newRef, mtu % 0x1_0000_0000)];
    case LLAPlugin =>
      if env.hardwareAddr.Some? {
        ra.options := ra.options + [LinkLayerAddress(env.hardwareAddr.value)];
      }
    case CaptivePortalPlugin(ref, uri) =>
      ra.options := ra.options + [CaptivePortal(ref, uri)];
    case PREF64Plugin(prefix, lifetime) =>
      ra.options := ra.options + [PREF64(prefix, lifetime)];
  }
}
