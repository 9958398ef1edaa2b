/**
 * The update offer: what a check records, what a page load retracts, and what the
 * status page shows. Releases are offered by version; builds without a version are
 * compared by digest.
 */
module Offers {
  import opened Store
  import opened Versions

  const BETA_TAG: string := "beta"
  const STABLE_TAG: string := "stable"
  const CHANNEL_SWITCHED: string := "channel-switched"

  /** The rows of the settings table that updates use. */
  datatype Settings = Settings(
    available: bool, version: string, digest: string, known: string, inProgress: bool,
    betas: bool, betaTarget: string)

  /** The process: the version it was built as, and the channel it was told to follow. */
  datatype Build = Build(version: string, channel: string)

  /** What a check finds out: the releases, the registry's digest of each tag, the digests deployed. */
  datatype World = World(
    newest: Option<(Rank, string)>, digests: map<string, string>, deployed: Option<set<string>>)

  /** How the program reads a version: `Versions.Parse`, which takes no part in what follows. */
  type Reader = string -> Option<Rank>

  function Running(read: Reader, build: Build): Option<Rank> {
    read(build.version)
  }

  predicate IncludeBetas(s: Settings, build: Build) {
    s.betas || build.channel == BETA_TAG
  }

  predicate ByVersion(read: Reader, s: Settings, build: Build) {
    IncludeBetas(s, build) || (Running(read, build).Some? && build.channel == STABLE_TAG)
  }

  /** The running build has reached what is offered by version. */
  predicate Reached(read: Reader, s: Settings, build: Build) {
    read(s.version).Some? && Running(read, build).Some? && AtLeast(Running(read, build).value, read(s.version).value)
  }

  predicate Deployed(s: Settings, deployed: Option<set<string>>) {
    s.digest != "" && deployed.Some? && s.digest in deployed.value
  }

  // --- What is recorded ----------------------------------------------------

  /** A version offer leaves no digest behind, and its version can be read again. */
  predicate Sound(read: Reader, s: Settings) {
    s.version != "" ==> s.digest == "" && read(s.version).Some?
  }

  /** The newest release as the list gave it. */
  predicate WellFound(read: Reader, w: World) {
    w.newest.Some? ==> w.newest.value.1 != "" && read(w.newest.value.1) == Some(w.newest.value.0)
  }

  /** The outcome of a digest comparison, against what is deployed or else a remembered digest. */
  function Compared(s: Settings, digest: string, deployed: Option<set<string>>): Settings {
    if deployed.Some? then
      if digest in deployed.value then s.(available := false, known := digest) else s.(available := true)
    else if s.known == "" || s.known == CHANNEL_SWITCHED then s.(available := false, known := digest)
    else s.(available := digest != s.known)
  }

  /** `target_channel`: the tag an update moves to. */
  function Target(s: Settings, build: Build): string {
    if !IncludeBetas(s, build) then build.channel
    else if s.betaTarget == STABLE_TAG then STABLE_TAG
    else BETA_TAG
  }

  function ByDigest(s: Settings, build: Build, w: World): Settings {
    var tag := Target(s, build);
    if tag !in w.digests then s.(version := "")
    else Compared(s.(version := "", digest := w.digests[tag]), w.digests[tag], w.deployed)
  }

  /** The settings after a check. */
  function Checked(read: Reader, s: Settings, build: Build, w: World): Settings {
    if ByVersion(read, s, build) && w.newest.None? then s
    else
      var s1 := if ByVersion(read, s, build) && IncludeBetas(s, build) then
                  s.(betaTarget := if w.newest.value.0.beta == RELEASE_RANK then STABLE_TAG else BETA_TAG)
                else s;
      if ByVersion(read, s, build) && Running(read, build).Some? then
        var ahead := RankLess(Running(read, build).value, w.newest.value.0);
        s1.(version := if ahead then w.newest.value.1 else "", digest := "", available := ahead)
      else ByDigest(s1, build, w)
  }

  /** The settings after a page load. */
  function Refreshed(read: Reader, s: Settings, build: Build, deployed: Option<set<string>>): Settings {
    if s.inProgress || !s.available then s
    else if Reached(read, s, build) then s.(available := false, version := "")
    else if Deployed(s, deployed) then s.(available := false, known := s.digest)
    else s
  }

  // --- Events --------------------------------------------------------------

  datatype Event =
    | Check(w: World)
    | Load(deployed: Option<set<string>>)
    | Restart(build: Build)
    | Switch(betas: bool)
    | Start
    | End(succeeded: bool)

  datatype System = System(settings: Settings, build: Build)

  function Step(read: Reader, y: System, e: Event): System {
    var s := y.settings;
    match e
    case Check(w) => y.(settings := Checked(read, s, y.build, w))
    case Load(deployed) => y.(settings := Refreshed(read, s, y.build, deployed))
    case Restart(b) =>
      System(if s.inProgress then s.(available := false, inProgress := false) else s, b)
    case Switch(betas) => if s.inProgress then y else y.(settings := s.(betas := betas))
    case Start => y.(settings := s.(inProgress := true))
    case End(succeeded) => y.(settings := s.(inProgress := false, available := s.available && !succeeded))
  }

  // --- What a check says ---------------------------------------------------

  /** The build is offered releases: betas are on, or it is a release of the stable channel. */
  predicate FollowsReleases(read: Reader, y: System) {
    y.settings.betas || y.build.channel == "beta" || (read(y.build.version).Some? && y.build.channel == "stable")
  }

  /**
   * The check compares the digest of this tag: the build's own channel, or, for a build
   * without a version and with betas on, the tag that the newest release is under.
   */
  predicate Tracks(read: Reader, y: System, w: World, tag: string) {
    if !FollowsReleases(read, y) then tag == y.build.channel
    else
      && read(y.build.version).None? && w.newest.Some?
      && tag == if w.newest.value.0.beta == RELEASE_RANK then "stable" else "beta"
  }

  /** A version is offered exactly if it is above the running one. */
  predicate VersionVerdict(read: Reader, y: System, w: World, after: Settings) {
    read(y.build.version).Some? && FollowsReleases(read, y) && w.newest.Some? ==>
      var (rank, name) := w.newest.value;
      && after.available == RankLess(read(y.build.version).value, rank)
      && after.version == (if after.available then name else "") && after.digest == ""
      && after.known == y.settings.known
  }

  /**
   * With docker's answer an update is offered exactly if the tag's digest is not deployed,
   * and a digest that is deployed becomes the baseline. Without it the digest is compared
   * with the baseline, and recorded as one if there is none or the channel was switched.
   */
  predicate DigestVerdict(y: System, digest: string, deployed: Option<set<string>>, after: Settings) {
    var known := y.settings.known;
    var baseline := known != "" && known != "channel-switched";
    && after.version == "" && after.digest == digest
    && (deployed.Some? ==>
          && after.available == (digest !in deployed.value)
          && after.known == if after.available then known else digest)
    && (deployed.None? ==>
          && after.available == (baseline && known != digest)
          && after.known == if baseline then known else digest)
  }

  /** A check that gets no answer keeps what was recorded, but for a version it does not stand by. */
  predicate SilenceVerdict(y: System, after: Settings) {
    && after.available == y.settings.available && after.version == ""
    && after.digest == y.settings.digest && after.known == y.settings.known
  }

  /** What a check leaves in the settings, by what it was answered. */
  ghost predicate CheckVerdict(read: Reader, y: System, w: World, after: Settings) {
    && VersionVerdict(read, y, w, after)
    && (FollowsReleases(read, y) && w.newest.None? ==> after == y.settings)
    && (forall tag | Tracks(read, y, w, tag) ::
          if tag in w.digests then DigestVerdict(y, w.digests[tag], w.deployed, after) else SilenceVerdict(y, after))
    && after.betas == y.settings.betas && after.inProgress == y.settings.inProgress
  }

  lemma CheckSays(read: Reader, y: System, w: World)
    ensures CheckVerdict(read, y, w, Step(read, y, Check(w)).settings)
  {
    var after := Step(read, y, Check(w)).settings;
    forall tag | Tracks(read, y, w, tag)
      ensures if tag in w.digests then DigestVerdict(y, w.digests[tag], w.deployed, after) else SilenceVerdict(y, after)
    {
      TrackedTag(read, y, w, tag);
    }
  }

  lemma TrackedTag(read: Reader, y: System, w: World, tag: string)
    requires Tracks(read, y, w, tag)
    ensures var after := Step(read, y, Check(w)).settings;
      if tag in w.digests then DigestVerdict(y, w.digests[tag], w.deployed, after) else SilenceVerdict(y, after)
  {
  }

  /** A page load with the same answer of docker never changes what a check by digest has just said. */
  lemma LoadKeepsVerdict(read: Reader, y: System, w: World, tag: string)
    requires Tracks(read, y, w, tag) && tag in w.digests && read("").None?
    ensures var said := Step(read, y, Check(w)); Step(read, said, Load(w.deployed)) == said
  {
    TrackedTag(read, y, w, tag);
  }

  /** Nor does one after a check by version. */
  lemma LoadKeepsOffer(read: Reader, y: System, w: World, deployed: Option<set<string>>)
    requires read(y.build.version).Some? && FollowsReleases(read, y) && w.newest.Some? && WellFound(read, w)
    ensures var said := Step(read, y, Check(w)); Step(read, said, Load(deployed)) == said
  {
  }

  /** What a page load took back because it is deployed stays back while docker gives no answer. */
  lemma RetractedStays(read: Reader, y: System, deployed: Option<set<string>>, w: World, tag: string)
    requires var loaded := Step(read, y, Load(deployed));
      && y.settings.available && y.settings.version == "" && !loaded.settings.available && read("").None?
      && y.settings.digest != "channel-switched"
      && Tracks(read, loaded, w, tag) && tag in w.digests && w.digests[tag] == y.settings.digest && w.deployed.None?
    ensures deployed.Some? && y.settings.digest in deployed.value
    ensures !Step(read, Step(read, y, Load(deployed)), Check(w)).settings.available
  {
    TrackedTag(read, Step(read, y, Load(deployed)), w, tag);
  }

  class Updates {
    var available: bool
    var version: string
    var digest: string
    var known: string
    var inProgress: bool
    var betas: bool
    var betaTarget: string
    var build: Build
    const read: Reader

    function State(): Settings
      reads this
    {
      Settings(available, version, digest, known, inProgress, betas, betaTarget)
    }

    function View(): System
      reads this
    {
      System(State(), build)
    }

    predicate Valid()
      reads this
    {
      Sound(read, State())
    }

    constructor (b: Build)
      ensures Valid() && build == b && read == Parse && State() == Settings(false, "", "", "", false, false, BETA_TAG)
    {
      available, version, digest, known, inProgress, betas, betaTarget := false, "", "", "", false, false, BETA_TAG;
      build, read := b, Parse;
    }

    /** The channel an update moves to. */
    method TargetChannel() returns (channel: string)
      ensures channel == Target(State(), build)
    {
      if !betas && build.channel != BETA_TAG {
        return build.channel;
      }
      channel := if betaTarget == BETA_TAG || betaTarget == STABLE_TAG then betaTarget else BETA_TAG;
    }

    /** Check for a newer build. `w` is what the network and docker answer; what is missing is no answer. */
    method CheckForUpdates(w: World) returns (offered: bool)
      requires Valid() && WellFound(read, w)
      modifies this
      ensures Valid() && View() == Step(read, old(View()), Check(w)) && offered == available
      ensures CheckVerdict(read, old(View()), w, State())
    {
      CheckSays(read, View(), w);
      var withBetas := betas || build.channel == BETA_TAG;
      var running := read(build.version);
      if withBetas || (running.Some? && build.channel == STABLE_TAG) {
        if w.newest.None? {
          return available;
        }
        var (rank, name) := w.newest.value;
        if withBetas {
          betaTarget := if rank.beta == RELEASE_RANK then STABLE_TAG else BETA_TAG;
        }
        if running.Some? {
          offered := RankLess(running.value, rank);
          version := if offered then name else "";
          digest := "";
          available := offered;
          return;
        }
      }
      offered := CompareDigest(w);
    }

    /** A build without a version: the tag's digest decides. */
    method CompareDigest(w: World) returns (offered: bool)
      modifies this
      ensures Valid() && build == old(build)
      ensures State() == ByDigest(old(State()), build, w) && offered == available
    {
      var tag := TargetChannel();
      version := "";
      if tag !in w.digests {
        return available;
      }
      digest := w.digests[tag];
      if w.deployed.Some? {
        offered := digest !in w.deployed.value;
        if !offered {
          known := digest;
        }
      } else {
        if known == "" || known == CHANNEL_SWITCHED {
          known := digest;
          available := false;
          return false;
        }
        offered := digest != known;
      }
      available := offered;
    }

    /** A check, from GitHub's answer on. */
    method CheckReleases(doc: Option<seq<Listed>>, digests: map<string, string>, deployed: Option<set<string>>)
      returns (offered: bool, best: Option<(Rank, string)>)
      requires Valid() && read == Parse
      modifies this
      ensures Valid() && offered == available
      ensures best.None? <==> doc.None? || NoneRanked(doc.value)
      ensures best.Some? ==> IsNewest(doc.value, best.value.0, best.value.1)
      ensures View() == Step(read, old(View()), Check(World(best, digests, deployed)))
    {
      best := None;
      if doc.Some? {
        best := Newest(doc.value);
      }
      offered := CheckForUpdates(World(best, digests, deployed));
    }

    /** Take back an offer that what is running or deployed contradicts. */
    method RefreshAvailable(deployed: Option<set<string>>)
      requires Valid()
      modifies this
      ensures Valid() && View() == Step(read, old(View()), Load(deployed))
    {
      if inProgress || !available {
        return;
      }
      var offered, running := read(version), read(build.version);
      if offered.Some? && running.Some? && AtLeast(running.value, offered.value) {
        available := false;
        version := "";
        return;
      }
      if digest != "" && deployed.Some? && digest in deployed.value {
        available := false;
        known := digest;
      }
    }

    /** The process starts; an update in flight brought this one up. */
    method FinishPendingUpdate(now: Build)
      requires Valid()
      modifies this
      ensures Valid() && View() == Step(read, old(View()), Restart(now))
      ensures build == now && !inProgress
      ensures if old(inProgress) then !available else State() == old(State())
    {
      build := now;
      if inProgress {
        available := false;
        inProgress := false;
      }
    }

    method SetBeta(enabled: bool) returns (ok: bool)
      requires Valid()
      modifies this
      ensures Valid() && View() == Step(read, old(View()), Switch(enabled)) && ok == !old(inProgress)
      ensures if ok then betas == enabled else View() == old(View())
    {
      if inProgress {
        return false;
      }
      betas := enabled;
      ok := true;
    }

    /** An update starts; how it ends without replacing the container is up to docker. */
    method StartUpdate() returns (ok: bool)
      requires Valid()
      modifies this
      ensures Valid() && View() == Step(read, old(View()), Start) && ok == !old(inProgress)
      ensures inProgress && available == old(available) && version == old(version)
    {
      ok := !inProgress;
      inProgress := true;
    }

    method EndUpdate(succeeded: bool)
      requires Valid()
      modifies this
      ensures Valid() && View() == Step(read, old(View()), End(succeeded))
      ensures !inProgress && available == (old(available) && !succeeded) && version == old(version)
    {
      if succeeded {
        available := false;
      }
      inProgress := false;
    }

    /**
     * What the status page shows. `stalled` is whether an update in progress has run
     * out of time, which ends it. A version on show is above the running build's.
     */
    method Status(deployed: Option<set<string>>, stalled: bool) returns (offer: bool, shown: string, busy: bool)
      requires Valid()
      modifies this
      ensures Valid() && offer == available && busy == inProgress == (old(inProgress) && !stalled)
      ensures var before := if old(inProgress) && stalled then Step(read, old(View()), End(false)) else old(View());
              View() == Step(read, before, Load(deployed))
      ensures !old(available) ==> !offer
      ensures !busy && shown != "" && Running(read, build).Some? ==>
                read(shown).Some? && RankLess(Running(read, build).value, read(shown).value)
      ensures shown == if offer then version else ""
    {
      if inProgress && stalled {
        EndUpdate(false);
      }
      RefreshAvailable(deployed);
      offer := available;
      shown := if available then version else "";
      busy := inProgress;
    }
  }

  // --- Whole histories -----------------------------------------------------

  predicate WellFormed(read: Reader, e: Event) {
    e.Check? ==> WellFound(read, e.w)
  }

  predicate WellFormedRun(read: Reader, es: seq<Event>) {
    forall e | e in es :: WellFormed(read, e)
  }

  function Play(read: Reader, y: System, es: seq<Event>): System {
    if es == [] then y else Step(read, Play(read, y, es[..|es| - 1]), es[|es| - 1])
  }

  /** The last version a check offered, while nothing has cleared it. */
  function LastOffer(read: Reader, y: System, es: seq<Event>): Option<Rank> {
    if es == [] then None
    else
      var front, e := es[..|es| - 1], es[|es| - 1];
      var before := Play(read, y, front);
      var running := Running(read, before.build);
      if e.Check? && ByVersion(read, before.settings, before.build) && running.Some? && e.w.newest.Some? then
        if RankLess(running.value, e.w.newest.value.0) then Some(e.w.newest.value.0) else None
      else LastOffer(read, y, front)
  }

  predicate Unoffered(s: Settings) {
    s.version == ""
  }

  /**
   * Over any history of checks, failed or not, page loads, restarts and updates: a
   * stored version reads as the rank last offered, and no digest is left to retract it.
   */
  lemma {:induction false} StoredVersionIsTheOffer(read: Reader, y: System, es: seq<Event>)
    requires Unoffered(y.settings) && WellFormedRun(read, es)
    ensures var s := Play(read, y, es).settings;
            s.version != "" ==>
              s.digest == "" && LastOffer(read, y, es).Some? && read(s.version) == LastOffer(read, y, es)
  {
    if es != [] {
      var front, e := es[..|es| - 1], es[|es| - 1];
      assert e in es && forall o | o in front :: o in es;
      StoredVersionIsTheOffer(read, y, front);
      StepKeepsOffer(read, Play(read, y, front), e);
    }
  }

  /** Only a check writes a version, and only the newest release's. */
  lemma StepKeepsOffer(read: Reader, y: System, e: Event)
    requires WellFormed(read, e)
    requires y.settings.version != "" ==> y.settings.digest == "" && read(y.settings.version).Some?
    ensures var s := Step(read, y, e).settings;
            s.version != "" ==>
              s.digest == "" &&
              if e.Check? && ByVersion(read, y.settings, y.build) && Running(read, y.build).Some? && e.w.newest.Some?
              then
                && RankLess(Running(read, y.build).value, e.w.newest.value.0)
                && read(s.version) == Some(e.w.newest.value.0)
              else s.version == y.settings.version
  {
  }

  /** Nothing but a check raises the flag. */
  lemma OnlyChecksOffer(read: Reader, y: System, e: Event)
    requires Step(read, y, e).settings.available && !y.settings.available
    ensures e.Check? && (ByVersion(read, y.settings, y.build) ==> e.w.newest.Some?)
  {
  }

  /** While no update is in progress, an offer by version is taken back exactly when it is reached. */
  lemma RetractedIffReached(read: Reader, y: System, es: seq<Event>, deployed: Option<set<string>>)
    requires Unoffered(y.settings) && WellFormedRun(read, es)
    requires var s := Play(read, y, es).settings; s.available && s.version != "" && !s.inProgress
    ensures LastOffer(read, y, es).Some?
    ensures var here := Play(read, y, es);
            var running := Running(read, here.build);
            var kept := running.None? || RankLess(running.value, LastOffer(read, y, es).value);
            Step(read, here, Load(deployed)).settings.available <==> kept
  {
    StoredVersionIsTheOffer(read, y, es);
  }

  /** A page load never turns "no update" into an offer, and a second one changes nothing. */
  lemma RefreshedTwice(read: Reader, s: Settings, build: Build, deployed: Option<set<string>>)
    ensures var once := Refreshed(read, s, build, deployed);
            Refreshed(read, once, build, deployed) == once && (once.available ==> s.available)
  {
  }

  /**
   * A page load can take an offer back, whatever docker reports, exactly when a digest
   * is remembered or the offered version is reached.
   */
  lemma RetractableIff(read: Reader, s: Settings, build: Build)
    requires s.available && !s.inProgress
    ensures (exists deployed :: !Refreshed(read, s, build, deployed).available)
            <==> s.digest != "" || Reached(read, s, build)
  {
    if s.digest != "" {
      assert !Refreshed(read, s, build, Some({s.digest})).available;
    }
    if Reached(read, s, build) {
      assert !Refreshed(read, s, build, None).available;
    }
  }

  /**
   * An offer made by version, then betas switched off on a build that follows neither
   * releases nor betas, then a check that gets no answer: the flag stays, its version
   * is gone, and no page load can take it back.
   */
  lemma SwitchedOfferSticks(
      read: Reader, y: System, build: Build, rank: Rank, name: string, later: Build, deployed: Option<set<string>>)
    requires read("") == None && y.build == build && y.settings.betas && !y.settings.inProgress
    requires build.channel != BETA_TAG && build.channel != STABLE_TAG
    requires Running(read, build).Some? && RankLess(Running(read, build).value, rank)
    requires name != "" && read(name) == Some(rank)
    ensures var es := [Check(World(Some((rank, name)), map[], None)), Switch(false), Check(World(None, map[], None))];
            var end := Play(read, y, es).settings;
            end.available && end.version == "" && Refreshed(read, end, later, deployed).available
  {
    var offer := Check(World(Some((rank, name)), map[], None));
    var silence := Check(World(None, map[], None));
    var es := [offer, Switch(false), silence];
    assert es[..2] == [offer, Switch(false)] && es[..2][..1] == [offer] && [offer][..0] == [];
    var one := Step(read, y, offer);
    assert Play(read, y, [offer]) == one;
    var two := Step(read, one, Switch(false));
    assert Play(read, y, [offer, Switch(false)]) == two;
  }

  /** The empty text is no version. */
  lemma EmptyIsNoVersion(s: string)
    requires s == ""
    ensures Parse(s).None?
  {
  }

  /** And so it is with the tags Beacon reads. */
  lemma SwitchedOfferSticksHere(
      y: System, build: Build, rank: Rank, name: string, later: Build, deployed: Option<set<string>>)
    requires y.build == build && y.settings.betas && !y.settings.inProgress
    requires build.channel != BETA_TAG && build.channel != STABLE_TAG
    requires Running(Parse, build).Some? && RankLess(Running(Parse, build).value, rank)
    requires name != "" && Parse(name) == Some(rank)
    ensures var es := [Check(World(Some((rank, name)), map[], None)), Switch(false), Check(World(None, map[], None))];
            var end := Play(Parse, y, es).settings;
            end.available && end.version == "" && Refreshed(Parse, end, later, deployed).available
  {
    EmptyIsNoVersion("");
    SwitchedOfferSticks(Parse, y, build, rank, name, later, deployed);
  }
}
