/** What a browser session may do, and how a running permission is revised: never above what the host started with, and
    never wider without saying so. */
module Permission {
  import opened Options

  type Origin = string
  type Url = string
  type Method = string
  type ActionName = string
  type Path = string
  type TargetRef = string

  const ANY: Origin := "*"

  datatype Risk = Read | Mutate | ExternalEffect

  function Level(r: Risk): nat {
    match r case Read => 0 case Mutate => 1 case ExternalEffect => 2
  }

  datatype ActionSpec = ActionSpec(methods: seq<Method>, events: seq<Method>, risk: Risk)

  /** The fixed tables, and the readings of addresses and paths that come from outside: the exact origin an
      allowed-origin entry stands for, the origin of a target or command address, the place (origin and path, no query)
      told of a held one, the directory a root entry stands for, the file a path stands for, containment, and whether a
      request scope admits a list of origins. */
  datatype World = World(
    commandRisk: map<Method, Risk>,
    actions: map<ActionName, ActionSpec>,
    exactOrigin: string -> Option<Origin>,
    originOf: Url -> Option<Origin>,
    placeOf: Url -> (Origin, string),
    realDirectory: string -> Option<Path>,
    realFile: string -> Option<Path>,
    inside: (Path, Path) -> bool,
    scopeAdmits: seq<Origin> -> bool)

  // ---- The policy.

  datatype Policy = Policy(origins: set<Origin>, methods: set<Method>, fileRoots: seq<Path>, downloadRoot: Option<Path>,
                           maxRisk: Risk)

  datatype Target = Target(page: bool, url: Url)

  /** The parameters of a command, as far as the policy looks at them. */
  datatype Params = Params(url: Option<Url>, domain: bool, origin: Option<Origin>, quotaSafe: bool, urls: seq<Url>,
                           files: seq<string>, storageOrigin: Option<Origin>, interceptsDocuments: bool,
                           downloadPath: Option<Path>)

  predicate AllowsOrigin(p: Policy, origin: Option<Origin>) {
    origin.Some? && (ANY in p.origins || origin.value in p.origins)
  }

  predicate AllowsTarget(w: World, p: Policy, t: Target) { t.page && AllowsOrigin(p, w.originOf(t.url)) }

  predicate AllowsUrl(w: World, p: Policy, url: Option<Url>) { url.Some? && AllowsOrigin(p, w.originOf(url.value)) }

  predicate AllowsExactOrigin(w: World, p: Policy, origin: Option<Origin>) {
    origin.Some? && w.originOf(origin.value) == origin && AllowsOrigin(p, origin)
  }

  predicate AllowsFile(w: World, p: Policy, file: string) {
    w.realFile(file).Some? && exists root :: root in p.fileRoots && w.inside(root, w.realFile(file).value)
  }

  predicate AllowsFiles(w: World, p: Policy, files: seq<string>) {
    |files| >= 1 && |p.fileRoots| >= 1 && forall f :: f in files ==> AllowsFile(w, p, f)
  }

  const STORAGE_COMMANDS := {"Storage.clearDataForOrigin", "Storage.getUsageAndQuota", "Storage.overrideQuotaForOrigin"}

  predicate AllowsParams(w: World, p: Policy, m: Method, a: Params) {
    && (m == "Page.navigate" ==> AllowsUrl(w, p, a.url))
    && (m == "Fetch.continueRequest" && a.url.Some? ==> AllowsUrl(w, p, a.url))
    && (m == "Fetch.enable" ==> a.interceptsDocuments)
    && (m in STORAGE_COMMANDS ==> AllowsExactOrigin(w, p, a.origin))
    && (m == "Storage.overrideQuotaForOrigin" ==> a.quotaSafe)
    && (m == "Network.setCookie" || m == "Network.deleteCookies" ==> !a.domain && AllowsUrl(w, p, a.url))
    && (m == "Network.getCookies" ==> a.urls != [] && forall u :: u in a.urls ==> AllowsUrl(w, p, Some(u)))
    && (m == "DOM.setFileInputFiles" ==> AllowsFiles(w, p, a.files))
    && ("DOMStorage." <= m && m != "DOMStorage.enable" ==> AllowsExactOrigin(w, p, a.storageOrigin))
    && (m == "Page.setDownloadBehavior" ==> p.downloadRoot.Some? && a.downloadPath == p.downloadRoot)
  }

  /** A command passes: its target, its method and its parameters are all inside the permission. */
  predicate Authorizes(w: World, p: Policy, t: Target, m: Method, a: Params) {
    AllowsTarget(w, p, t) && m in p.methods && AllowsParams(w, p, m, a)
  }

  // ---- The configuration and its revision.

  datatype Config = Config(targetOrigins: seq<Origin>, actions: seq<ActionName>, rawMethods: seq<Method>,
                           methods: seq<Method>, events: seq<Method>, fileRoots: seq<Path>, maxRisk: Risk)

  /** What a controller asks for; absent fields keep their value. `reference` is the trimmed approval text. */
  datatype Revision = Revision(allowedOrigins: Option<seq<string>>, actions: Option<seq<ActionName>>,
                               rawMethods: Option<seq<Method>>, maxRisk: Option<string>, fileRoots: Option<seq<string>>,
                               reference: string, referencePrintable: bool)

  datatype Error = BadReference | BadOrigins | BadRisk | OutsideStart | BadMethod | UploadWithoutRoots | NeedsReference
                 | PolicyRefused | RecorderRefused | PortFailed

  datatype Result<T> = Done(value: T) | Refused(error: Error)

  datatype Revised = Revised(config: Config, widened: bool)

  function RiskNamed(name: string): Option<Risk> {
    if name == "read" then Some(Read) else if name == "mutate" then Some(Mutate)
    else if name == "externalEffect" then Some(ExternalEffect) else None
  }

  predicate Within<T(==)>(a: seq<T>, b: seq<T>) { forall x :: x in a ==> x in b }

  predicate Grew<T(==)>(next: seq<T>, now: seq<T>) { exists x :: x in next && x !in now }

  /** The entries without repetition, at their first places. */
  function Unique(s: seq<string>): (r: seq<string>)
    ensures forall x :: x in r <==> x in s
  {
    if s == [] then []
    else
      var r := Unique(s[..|s| - 1]);
      if s[|s| - 1] in r then r else r + [s[|s| - 1]]
  }

  /** Reads every entry, or none when one cannot be read. */
  function ReadAll(reader: string -> Option<string>, entries: seq<string>): (r: Option<seq<string>>)
    ensures r.Some? ==> |r.value| == |entries|
    ensures r.Some? ==> forall i :: 0 <= i < |entries| ==> reader(entries[i]) == Some(r.value[i])
  {
    if entries == [] then Some([])
    else
      match (reader(entries[0]), ReadAll(reader, entries[1..]))
      case (Some(x), Some(rest)) => Some([x] + rest)
      case _ => None
  }

  function ExactOrigins(w: World, entries: seq<string>): Option<seq<Origin>> {
    if ANY in entries then if |entries| == 1 then Some([ANY]) else None
    else match ReadAll(w.exactOrigin, entries) case Some(origins) => Some(Unique(origins)) case None => None
  }

  /** Every method is classified and no riskier than the bound. */
  predicate MethodsFit(w: World, methods: seq<Method>, maxRisk: Risk) {
    forall m :: m in methods ==> m in w.commandRisk && Level(w.commandRisk[m]) <= Level(maxRisk)
  }

  predicate ActionsFit(w: World, actions: seq<ActionName>, maxRisk: Risk) {
    forall n :: n in actions ==> n in w.actions && Level(w.actions[n].risk) <= Level(maxRisk)
  }

  function ActionMethods(w: World, actions: seq<ActionName>): (r: seq<Method>)
    ensures forall m :: m in r <==> exists n :: n in actions && n in w.actions && m in w.actions[n].methods
  {
    if actions == [] then []
    else
      assert forall n :: n in actions <==> n == actions[0] || n in actions[1..];
      (if actions[0] in w.actions then w.actions[actions[0]].methods else []) + ActionMethods(w, actions[1..])
  }

  function ActionEvents(w: World, actions: seq<ActionName>): seq<Method> {
    if actions == [] then []
    else (if actions[0] in w.actions then w.actions[actions[0]].events else []) + ActionEvents(w, actions[1..])
  }

  function RevisedOrigins(w: World, start: Config, current: Config, input: Revision): Result<seq<Origin>> {
    var origins := if input.allowedOrigins.None? then Some(current.targetOrigins)
                   else ExactOrigins(w, input.allowedOrigins.value);
    if origins.None? || origins.value == [] then Refused(BadOrigins)
    else if ANY in origins.value && ANY !in start.targetOrigins then Refused(BadOrigins)
    else if !w.scopeAdmits(origins.value) then Refused(BadOrigins)
    else Done(origins.value)
  }

  function RevisedRoots(w: World, start: Config, current: Config, input: Revision): Result<seq<Path>> {
    if input.fileRoots.None? then Done(current.fileRoots)
    else
      match ReadAll(w.realDirectory, input.fileRoots.value)
      case None => Refused(OutsideStart)
      case Some(roots) => if Within(roots, start.fileRoots) then Done(Unique(roots)) else Refused(OutsideStart)
  }

  /** Whether the next configuration reaches beyond the current one. Leaving "*" only narrows. */
  predicate Widens(current: Config, origins: seq<Origin>, actions: seq<ActionName>, rawMethods: seq<Method>,
                   roots: seq<Path>, maxRisk: Risk) {
    || (ANY !in current.targetOrigins && Grew(origins, current.targetOrigins))
    || Grew(actions, current.actions) || Grew(rawMethods, current.rawMethods) || Grew(roots, current.fileRoots)
    || Level(maxRisk) > Level(current.maxRisk)
  }

  /** The revision itself: the configuration it leads to and whether that widens the current one. */
  function Revise(w: World, start: Config, current: Config, input: Revision): Result<Revised> {
    if !input.referencePrintable || |input.reference| > 200 then Refused(BadReference)
    else
      match RevisedOrigins(w, start, current, input)
      case Refused(e) => Refused(e)
      case Done(origins) =>
        var risk := if input.maxRisk.None? then Some(current.maxRisk) else RiskNamed(input.maxRisk.value);
        if risk.None? || Level(risk.value) > Level(start.maxRisk) then Refused(BadRisk)
        else
          var actions := if input.actions.None? then current.actions else input.actions.value;
          var rawMethods := if input.rawMethods.None? then current.rawMethods else input.rawMethods.value;
          if input.actions.Some? && !Within(actions, start.actions) then Refused(OutsideStart)
          else if input.rawMethods.Some? && !Within(rawMethods, start.rawMethods) then Refused(OutsideStart)
          else
            match RevisedRoots(w, start, current, input)
            case Refused(e) => Refused(e)
            case Done(roots) => Settle(w, current, input, origins, risk.value, actions, rawMethods, roots)
  }

  function Settle(w: World, current: Config, input: Revision, origins: seq<Origin>, maxRisk: Risk,
                  actions: seq<ActionName>, rawMethods: seq<Method>, roots: seq<Path>): Result<Revised> {
    var actionMethods := Unique(ActionMethods(w, actions));
    if !ActionsFit(w, actions, maxRisk) || !MethodsFit(w, rawMethods, maxRisk) || !MethodsFit(w, actionMethods, maxRisk)
    then Refused(BadMethod)
    else if ("upload" in actions || "DOM.setFileInputFiles" in rawMethods) && roots == [] then
      Refused(UploadWithoutRoots)
    else
      var widened := Widens(current, origins, actions, rawMethods, roots, maxRisk);
      if widened && input.reference == "" then Refused(NeedsReference)
      else
        Done(Revised(Config(origins, actions, rawMethods, Unique(rawMethods + actionMethods),
                            Unique(ActionEvents(w, actions)), roots, maxRisk), widened))
  }

  // ---- What a sound configuration is.

  /** The permitted methods are the raw ones and those the actions need, all within the risk bound. */
  ghost predicate Sound(w: World, c: Config) {
    && (forall m :: m in c.methods <==> m in c.rawMethods || m in ActionMethods(w, c.actions))
    && MethodsFit(w, c.methods, c.maxRisk) && ActionsFit(w, c.actions, c.maxRisk)
    && c.targetOrigins != [] && (ANY in c.targetOrigins ==> c.targetOrigins == [ANY])
  }

  /** Nothing above what the host started with. */
  ghost predicate Under(start: Config, c: Config) {
    && Within(c.actions, start.actions) && Within(c.rawMethods, start.rawMethods)
    && Within(c.fileRoots, start.fileRoots)
    && Level(c.maxRisk) <= Level(start.maxRisk) && (ANY in c.targetOrigins ==> ANY in start.targetOrigins)
  }

  lemma {:induction false} RevisedOriginsAreSound(w: World, start: Config, current: Config, input: Revision)
    requires Sound(w, current) && RevisedOrigins(w, start, current, input).Done?
    requires forall e: string :: w.exactOrigin(e) != Some(ANY)
    ensures var origins := RevisedOrigins(w, start, current, input).value;
      origins != [] && (ANY in origins ==> origins == [ANY] && ANY in start.targetOrigins)
  {
    if input.allowedOrigins.Some? && ANY !in input.allowedOrigins.value {
      var entries := input.allowedOrigins.value;
      var origins := ReadAll(w.exactOrigin, entries).value;
      assert ANY !in origins by {
        forall i | 0 <= i < |origins| ensures origins[i] != ANY {
          assert w.exactOrigin(entries[i]) == Some(origins[i]);
        }
      }
    }
  }

  /** An applied revision stays under the start and within its own risk bound, and tells exactly whether it widened. */
  lemma {:induction false} RevisionStaysUnderStart(w: World, start: Config, current: Config, input: Revision)
    requires Sound(w, current) && Under(start, current) && Revise(w, start, current, input).Done?
    requires forall e: string :: w.exactOrigin(e) != Some(ANY)
    ensures var r := Revise(w, start, current, input).value;
      && Sound(w, r.config) && Under(start, r.config)
      && (r.widened <==> Widens(current, r.config.targetOrigins, r.config.actions, r.config.rawMethods,
                                r.config.fileRoots, r.config.maxRisk))
      && (r.widened ==> input.reference != "")
  {
    RevisedOriginsAreSound(w, start, current, input);
  }

  // ---- What a revision that does not widen can authorize.

  /** The policy a configuration is turned into; the roots are read again. */
  function PolicyOf(w: World, c: Config, downloadRoot: Option<Path>): Option<Policy> {
    match ReadAll(w.realDirectory, c.fileRoots)
    case None => None
    case Some(roots) =>
      if MethodsFit(w, c.methods, c.maxRisk) && w.scopeAdmits(c.targetOrigins) then
        Some(Policy((set o | o in c.targetOrigins), (set m | m in c.methods), roots, downloadRoot, c.maxRisk))
      else None
  }

  /** `q` allows at least what `p` allows, entry by entry. */
  ghost predicate Covers(p: Policy, q: Policy) {
    && (ANY in q.origins || (ANY !in p.origins && p.origins <= q.origins))
    && p.methods <= q.methods && Within(p.fileRoots, q.fileRoots) && p.downloadRoot == q.downloadRoot
  }

  lemma {:induction false} CoveredFiles(w: World, p: Policy, q: Policy, files: seq<string>)
    requires Covers(p, q) && AllowsFiles(w, p, files)
    ensures AllowsFiles(w, q, files)
  {
    forall f | f in files ensures AllowsFile(w, q, f) {
      assert AllowsFile(w, p, f);
      var root :| root in p.fileRoots && w.inside(root, w.realFile(f).value);
      assert root in q.fileRoots;
    }
    assert p.fileRoots[0] in q.fileRoots;
  }

  lemma {:induction false} CoveredCommands(w: World, p: Policy, q: Policy, t: Target, m: Method, a: Params)
    requires Covers(p, q) && Authorizes(w, p, t, m, a)
    ensures Authorizes(w, q, t, m, a)
  {
    if m == "DOM.setFileInputFiles" { CoveredFiles(w, p, q, a.files); }
    assert forall o :: AllowsOrigin(p, o) ==> AllowsOrigin(q, o);
  }

  lemma {:induction false} ReadAllWithin(reader: string -> Option<string>, a: seq<string>, b: seq<string>)
    requires Within(a, b) && ReadAll(reader, a).Some? && ReadAll(reader, b).Some?
    ensures Within(ReadAll(reader, a).value, ReadAll(reader, b).value)
  {
    var ra, rb := ReadAll(reader, a).value, ReadAll(reader, b).value;
    forall x | x in ra ensures x in rb {
      var i :| 0 <= i < |ra| && ra[i] == x;
      assert a[i] in a && a[i] in b;
      var j :| 0 <= j < |b| && b[j] == a[i];
      assert rb[j] == x;
    }
  }

  /** A revision reported as not widened authorizes no command the policy before it refused: whatever the target, the
      method and the parameters, and moves to and from "*" included. */
  lemma {:induction false} NotWidenedAuthorizesNothingNew(w: World, start: Config, current: Config, input: Revision,
      downloadRoot: Option<Path>, t: Target, m: Method, a: Params)
    requires Sound(w, current) && Under(start, current) && forall e: string :: w.exactOrigin(e) != Some(ANY)
    ensures var r := Revise(w, start, current, input);
      && r.Done? && !r.value.widened
      && PolicyOf(w, current, downloadRoot).Some? && PolicyOf(w, r.value.config, downloadRoot).Some?
      && Authorizes(w, PolicyOf(w, r.value.config, downloadRoot).value, t, m, a)
      ==> Authorizes(w, PolicyOf(w, current, downloadRoot).value, t, m, a)
  {
    var r := Revise(w, start, current, input);
    if r.Done? && !r.value.widened {
      var next := r.value.config;
      NotWidenedCovers(w, start, current, input);
      var before, after := PolicyOf(w, current, downloadRoot), PolicyOf(w, next, downloadRoot);
      if before.Some? && after.Some? && Authorizes(w, after.value, t, m, a) {
        ReadAllWithin(w.realDirectory, next.fileRoots, current.fileRoots);
        CoveredCommands(w, after.value, before.value, t, m, a);
      }
    }
  }

  /** Without widening, every origin, method and root of the next configuration was in the current one. */
  lemma {:induction false} NotWidenedCovers(w: World, start: Config, current: Config, input: Revision)
    requires Sound(w, current) && Under(start, current) && Revise(w, start, current, input).Done?
    requires forall e: string :: w.exactOrigin(e) != Some(ANY)
    requires !Revise(w, start, current, input).value.widened
    ensures var next := Revise(w, start, current, input).value.config;
      && (ANY in current.targetOrigins
          || (ANY !in next.targetOrigins && Within(next.targetOrigins, current.targetOrigins)))
      && Within(next.methods, current.methods) && Within(next.fileRoots, current.fileRoots)
  {
    var next := Revise(w, start, current, input).value.config;
    RevisionStaysUnderStart(w, start, current, input);
    NotGrown(next.actions, current.actions);
    NotGrown(next.rawMethods, current.rawMethods);
    NotGrown(next.fileRoots, current.fileRoots);
    if ANY !in current.targetOrigins { NotGrown(next.targetOrigins, current.targetOrigins); }
    MethodsFollowActions(w, next, current);
  }

  lemma {:induction false} NotGrown<T>(next: seq<T>, now: seq<T>)
    requires !Grew(next, now)
    ensures Within(next, now)
  {}

  lemma {:induction false} MethodsFollowActions(w: World, next: Config, current: Config)
    requires Sound(w, next) && Sound(w, current)
    requires Within(next.actions, current.actions) && Within(next.rawMethods, current.rawMethods)
    ensures Within(next.methods, current.methods)
  {
    forall m | m in next.methods ensures m in current.methods {
      if m !in next.rawMethods {
        var n :| n in next.actions && n in w.actions && m in w.actions[n].methods;
        assert n in current.actions;
      }
    }
  }

  // ---- Any run of revisions.

  /** The configuration after a list of revisions; a refused one changes nothing. */
  function AfterAll(w: World, start: Config, inputs: seq<Revision>): Config {
    if inputs == [] then start
    else
      var before := AfterAll(w, start, inputs[..|inputs| - 1]);
      match Revise(w, start, before, inputs[|inputs| - 1])
      case Done(r) => r.config
      case Refused(_) => before
  }

  /** However often a permission is revised, it never exceeds what the host started with, and every permitted method
      stays within the risk bound. */
  lemma {:induction false} NeverAboveStart(w: World, start: Config, inputs: seq<Revision>)
    requires Sound(w, start) && forall e: string :: w.exactOrigin(e) != Some(ANY)
    ensures Sound(w, AfterAll(w, start, inputs)) && Under(start, AfterAll(w, start, inputs))
  {
    if inputs != [] {
      var short := inputs[..|inputs| - 1];
      NeverAboveStart(w, start, short);
      if Revise(w, start, AfterAll(w, start, short), inputs[|inputs| - 1]).Done? {
        RevisionStaysUnderStart(w, start, AfterAll(w, start, short), inputs[|inputs| - 1]);
      }
    }
  }

  /** Every command the first policy lets pass the second does too. */
  ghost predicate NoWider(w: World, p: Policy, q: Policy) {
    forall t, m, a :: Authorizes(w, p, t, m, a) ==> Authorizes(w, q, t, m, a)
  }

  lemma {:induction false} RevisedNoWider(w: World, start: Config, now: Config, input: Revision,
                                          downloadRoot: Option<Path>)
    requires Revise(w, start, now, input).Done? && !Revise(w, start, now, input).value.widened
    requires Sound(w, now) && Under(start, now) && forall e: string :: w.exactOrigin(e) != Some(ANY)
    requires PolicyOf(w, now, downloadRoot).Some?
    requires PolicyOf(w, Revise(w, start, now, input).value.config, downloadRoot).Some?
    ensures NoWider(w, PolicyOf(w, Revise(w, start, now, input).value.config, downloadRoot).value,
                    PolicyOf(w, now, downloadRoot).value)
  {
    var next := PolicyOf(w, Revise(w, start, now, input).value.config, downloadRoot).value;
    forall t, m, a | Authorizes(w, next, t, m, a) ensures Authorizes(w, PolicyOf(w, now, downloadRoot).value, t, m, a) {
      NotWidenedAuthorizesNothingNew(w, start, now, input, downloadRoot, t, m, a);
    }
  }

  // ---- The running host.

  type Place = (Origin, string)

  /** One browser session: its target, where it was last seen, and the place it is held at outside the permission. */
  class BrowserSession {
    const targetRef: TargetRef
    var attached: bool
    var lastTarget: Target
    var held: Option<Place>
    var verified: bool

    constructor (targetRef: TargetRef, target: Target)
      ensures this.targetRef == targetRef && attached && lastTarget == target && held.None? && !verified
    {
      this.targetRef := targetRef;
      attached, lastTarget, held, verified := true, target, None, false;
    }

    /** Judged against a policy: held outside it, released and to be verified again inside it. */
    method Judge(allowed: bool, place: Place)
      modifies this`held, this`verified
      ensures (held, verified) == Judgement(attached, allowed, place, old(held), old(verified))
    {
      if attached {
        if !allowed {
          held, verified := Some(place), false;
        } else if held.Some? {
          held, verified := None, false;
        }
      }
    }
  }

  function Judgement(attached: bool, allowed: bool, place: Place, held: Option<Place>, verified: bool)
    : (Option<Place>, bool)
  {
    if !attached then (held, verified)
    else if !allowed then (Some(place), false)
    else if held.Some? then (None, false)
    else (held, verified)
  }

  /** A target the port has handed out a reference for: the browser's id for it, and where it was last seen. */
  datatype Known = Known(id: string, target: Target)

  function Held(m: map<TargetRef, Place>, ref: TargetRef): Option<Place> {
    if ref in m then Some(m[ref]) else None
  }

  /** How a target is held once it is judged, given whether a session is attached to it and how it was held. */
  function HoldOf(w: World, p: Policy, t: Target, attached: bool, before: Option<Place>): Option<Place> {
    if AllowsTarget(w, p, t) then None
    else if attached then before
    else Some(w.placeOf(t.url))
  }

  class PermissionHost {
    const w: World
    const start: Config
    const downloadRoot: Option<Path>
    var config: Config
    var rawMethods: set<Method>
    var policy: Policy
    var allowedActions: set<ActionName>
    var sessions: seq<BrowserSession>
    var targets: map<TargetRef, Known>
    var heldTargets: map<TargetRef, Place>

    /** The configuration holds and only known targets are held. Whether the right ones are is settled by each revision
        (`SurfacesJudged`); until the next one a held target may be listed again inside the permission. */
    ghost predicate Valid()
      reads `config, `policy, `rawMethods, `allowedActions, `targets, `heldTargets
    {
      ConfigHolds() && heldTargets.Keys <= targets.Keys
    }

    /** The policy in force, the actions and the raw methods are those of the configuration, which is sound and under
        the start. */
    ghost predicate ConfigHolds()
      reads `config, `policy, `rawMethods, `allowedActions
    {
      && (forall e: string :: w.exactOrigin(e) != Some(ANY))
      && Sound(w, config) && Under(start, config)
      && PolicyOf(w, config, downloadRoot) == Some(policy)
      && rawMethods == (set m | m in config.rawMethods) && allowedActions == (set n | n in config.actions)
    }

    /** An attached session is held exactly when its last place is outside the policy. */
    ghost predicate Judged(s: BrowserSession)
      reads `policy, s
    {
      s.attached ==> (s.held.Some? <==> !AllowsTarget(w, policy, s.lastTarget))
    }

    ghost predicate AllJudged()
      reads `policy, `sessions, sessions
    {
      forall s :: s in sessions ==> Judged(s)
    }

    ghost function AttachedRefs(): set<TargetRef>
      reads `sessions, sessions
    {
      set s | s in sessions && s.attached :: s.targetRef
    }

    ghost predicate SurfacesJudged()
      reads `policy, `sessions, `targets, `heldTargets, sessions
    {
      AllJudged() && TargetsJudged(AttachedRefs())
    }

    /** No target inside the policy is held, and one outside it that no session is attached to is held where it was last
        seen. */
    ghost predicate TargetJudged(ref: TargetRef, attached: set<TargetRef>)
      requires ref in targets
      reads `policy, `targets, `heldTargets
    {
      if AllowsTarget(w, policy, targets[ref].target) then ref !in heldTargets
      else ref !in attached ==> ref in heldTargets && heldTargets[ref] == w.placeOf(targets[ref].target.url)
    }

    ghost predicate TargetsJudged(attached: set<TargetRef>)
      reads `policy, `targets, `heldTargets
    {
      heldTargets.Keys <= targets.Keys && forall ref :: ref in targets ==> TargetJudged(ref, attached)
    }

    /** Tabs that closed on their own are forgotten, and nothing else is. */
    method ForgetClosed(live: set<string>)
      requires heldTargets.Keys <= targets.Keys
      modifies this`targets, this`heldTargets
      ensures targets == map r | r in old(targets) && old(targets)[r].id in live :: old(targets)[r]
      ensures heldTargets == map r | r in old(heldTargets) && r in targets :: old(heldTargets)[r]
    {
      var refs := targets.Keys;
      while refs != {}
        invariant refs <= targets.Keys <= old(targets.Keys) && heldTargets.Keys <= targets.Keys
        invariant forall r :: r in old(targets) ==> (r in targets <==> r in refs || old(targets)[r].id in live)
        invariant forall r :: r in targets ==> targets[r] == old(targets)[r]
        invariant heldTargets == map r | r in old(heldTargets) && r in targets :: old(heldTargets)[r]
        decreases |refs|
      {
        var ref :| ref in refs;
        if targets[ref].id !in live {
          targets := targets - {ref};
          heldTargets := heldTargets - {ref};
        }
        refs := refs - {ref};
      }
    }

    /** What judging makes of a session that was held and verified like this. */
    ghost predicate JudgedFrom(s: BrowserSession, held: Option<Place>, verified: bool)
      reads `policy, s
    {
      (s.held, s.verified)
      == Judgement(s.attached, AllowsTarget(w, policy, s.lastTarget), w.placeOf(s.lastTarget.url), held, verified)
    }

    /** Judges every attached session where it was last seen. */
    method JudgeSessions() returns (attached: set<TargetRef>)
      modifies sessions
      ensures AllJudged() && attached == AttachedRefs()
      ensures forall s :: s in sessions ==> s.attached == old(s.attached) && s.lastTarget == old(s.lastTarget)
      ensures forall s :: s in sessions ==> JudgedFrom(s, old(s.held), old(s.verified))
    {
      attached := {};
      for i := 0 to |sessions|
        invariant attached == set s | s in sessions[..i] && s.attached :: s.targetRef
        invariant forall s :: s in sessions ==> s.attached == old(s.attached) && s.lastTarget == old(s.lastTarget)
        invariant forall s :: s in sessions ==>
          if s in sessions[..i] then JudgedFrom(s, old(s.held), old(s.verified))
          else s.held == old(s.held) && s.verified == old(s.verified)
      {
        var s := sessions[i];
        assert sessions[..i + 1] == sessions[..i] + [s];
        if s.attached { attached := attached + {s.targetRef}; }
        s.Judge(AllowsTarget(w, policy, s.lastTarget), w.placeOf(s.lastTarget.url));
      }
      assert sessions[..|sessions|] == sessions;
    }

    /** One target judged: allowed, it is not held; outside, it is held unless a session is attached to it. */
    method JudgeTarget(ref: TargetRef, attached: set<TargetRef>)
      requires ref in targets && heldTargets.Keys <= targets.Keys
      modifies this`heldTargets
      ensures heldTargets.Keys <= targets.Keys
      ensures Held(heldTargets, ref)
           == HoldOf(w, policy, targets[ref].target, ref in attached, Held(old(heldTargets), ref))
      ensures forall other :: other != ref ==> Held(heldTargets, other) == Held(old(heldTargets), other)
    {
      if AllowsTarget(w, policy, targets[ref].target) {
        heldTargets := heldTargets - {ref};
      } else if ref !in attached {
        heldTargets := heldTargets[ref := w.placeOf(targets[ref].target.url)];
      }
    }

    /** Judges every known target where it was last seen; one that a session is attached to is left to the session. */
    method JudgeTargets(attached: set<TargetRef>)
      requires heldTargets.Keys <= targets.Keys
      modifies this`heldTargets
      ensures TargetsJudged(attached)
      ensures forall ref :: ref in targets ==>
        Held(heldTargets, ref)
        == HoldOf(w, policy, targets[ref].target, ref in attached, Held(old(heldTargets), ref))
    {
      var refs := targets.Keys;
      while refs != {}
        invariant refs <= targets.Keys && heldTargets.Keys <= targets.Keys
        invariant forall ref :: ref in targets ==>
          Held(heldTargets, ref)
          == if ref in refs then Held(old(heldTargets), ref)
             else HoldOf(w, policy, targets[ref].target, ref in attached, Held(old(heldTargets), ref))
        decreases |refs|
      {
        var ref :| ref in refs;
        JudgeTarget(ref, attached);
        refs := refs - {ref};
      }
      forall ref | ref in targets ensures TargetJudged(ref, attached) {
        assert Held(heldTargets, ref)
            == HoldOf(w, policy, targets[ref].target, ref in attached, Held(old(heldTargets), ref));
      }
    }

    /** Puts a policy in force and judges every surface against it at once, where it was last seen: the sessions, and
        the targets no session is attached to. Targets whose tab has closed are forgotten first. `live` are the
        browser's targets, None where they cannot be listed. */
    method RevisePolicy(next: Policy, live: Option<set<string>>) returns (ok: bool)
      requires heldTargets.Keys <= targets.Keys
      modifies this`policy, this`targets, this`heldTargets, sessions
      ensures ok == live.Some?
      ensures ok ==> policy == next && SurfacesJudged()
      ensures ok ==> targets == map r | r in old(targets) && old(targets)[r].id in live.value :: old(targets)[r]
      ensures forall s :: s in sessions ==> s.attached == old(s.attached) && s.lastTarget == old(s.lastTarget)
      ensures !ok ==>
        && policy == old(policy) && targets == old(targets) && heldTargets == old(heldTargets)
        && forall s :: s in sessions ==> unchanged(s)
    {
      if live.None? { return false; }
      ForgetClosed(live.value);
      policy := next;
      var attached := JudgeSessions();
      JudgeTargets(attached);
      ok := true;
    }

    /** Puts a checked configuration in force: its policy at the port first, then the rest. */
    method Install(next: Config, nextPolicy: Policy, live: Option<set<string>>) returns (ok: bool)
      requires Valid() && Sound(w, next) && Under(start, next) && PolicyOf(w, next, downloadRoot) == Some(nextPolicy)
      modifies this`config, this`rawMethods, this`policy, this`allowedActions, this`targets, this`heldTargets, sessions
      ensures Valid() && ok == live.Some?
      ensures ok ==> config == next && policy == nextPolicy && SurfacesJudged()
      ensures !ok ==>
        && config == old(config) && policy == old(policy) && rawMethods == old(rawMethods)
        && allowedActions == old(allowedActions) && targets == old(targets) && heldTargets == old(heldTargets)
        && forall s :: s in sessions ==> unchanged(s)
    {
      ok := RevisePolicy(nextPolicy, live);
      if ok { TakeConfig(next); }
    }

    /** The configuration whose policy is in force, and what is derived from it. */
    method TakeConfig(next: Config)
      requires Sound(w, next) && Under(start, next) && PolicyOf(w, next, downloadRoot) == Some(policy)
      requires forall e: string :: w.exactOrigin(e) != Some(ANY)
      modifies this`config, this`rawMethods, this`allowedActions
      ensures ConfigHolds() && config == next
    {
      config := next;
      allowedActions := set n | n in config.actions;
      rawMethods := set m | m in config.rawMethods;
    }

    /** A revision takes effect as a whole or not at all: whatever refuses, refuses before the swap. The program runs
        revisions one after the other, so none sees another half done. Afterwards every surface is held exactly when it
        is outside the new permission, whatever was held before. */
    method Apply(input: Revision, live: Option<set<string>>) returns (r: Result<Revised>)
      requires Valid()
      modifies this`config, this`rawMethods, this`policy, this`allowedActions, this`targets, this`heldTargets, sessions
      ensures Valid()
      ensures r.Refused? ==>
        && config == old(config) && policy == old(policy) && rawMethods == old(rawMethods)
        && allowedActions == old(allowedActions) && targets == old(targets) && heldTargets == old(heldTargets)
        && forall s :: s in sessions ==> unchanged(s)
      ensures r.Done? ==> Revise(w, start, old(config), input) == r && config == r.value.config && SurfacesJudged()
      ensures r.Done? && !r.value.widened ==> NoWider(w, policy, old(policy))
    {
      var revised := Revise(w, start, config, input);
      if revised.Refused? { return revised; }
      var next := PolicyOf(w, revised.value.config, downloadRoot);
      if next.None? { return Refused(PolicyRefused); }
      var recorderRefuses: bool := *;
      if recorderRefuses { return Refused(RecorderRefused); }
      RevisionStaysUnderStart(w, start, config, input);
      if !revised.value.widened { RevisedNoWider(w, start, config, input, downloadRoot); }
      var installed := Install(revised.value.config, next.value, live);
      r := if installed then revised else Refused(PortFailed);
    }
  }
}
