/** One profile key on disk - its tombstone, its directory and its temporary siblings - and what
    cleanup, deletion fences and materialisation may do to them. */
module ProfileLifecycle {
  import opened Events
  import opened ProfileSeeds
  import opened LegacyUpgrades

  const MAX_DELETION_EXPIRY := 86400.0

  /** The identity of one deletion attempt. */
  datatype Attempt = Attempt(id: string, digest: string)

  /** A tombstone file.  `sound` says that a pending tombstone passes the full validation; `Corrupt`
      stands for every file that no reader accepts. */
  datatype Tombstone =
    | Pending(operation: string, epoch: int, who: Option<Attempt>, expires: real, sound: bool)
    | Repair(operation: string, epoch: int, who: Option<Attempt>)
    | Gone(operation: string, epoch: int, who: Option<Attempt>)
    | Deleted
    | Corrupt

  /** The profile path.  `tame` says that the tree is within the cleanup bound and has no links. */
  datatype Node = Absent | Directory(files: Files, rest: set<string>, tame: bool) | NotADirectory | Symlink

  /** The temporary siblings by the operation that builds them; true marks a symbolic link. */
  type Temps = map<string, bool>

  datatype Disk = Disk(tomb: Option<Tombstone>, profile: Node, temps: Temps, spooled: bool)

  ghost predicate Part(a: Temps, b: Temps) { forall k :: k in a ==> k in b && a[k] == b[k] }

  // ---------------------------------------------------------------- requests and receipts

  /** A cleanup request; a deletion carries its attempt. */
  datatype Request = Request(operation: string, epoch: nat, who: Option<Attempt>, expires: real)

  datatype CleanupStatus = Deprovisioned | RepairNeeded | Fenced

  datatype CleanupCode =
    | Fine | InvalidTombstone | StaleEpoch | TooLate | BadProfile | RemovalFailed

  datatype CleanupReceipt = CleanupReceipt(
    status: CleanupStatus, operation: string, epoch: int, who: Option<Attempt>, code: CleanupCode)

  function Reply(r: Request, status: CleanupStatus, epoch: int, code: CleanupCode): CleanupReceipt {
    CleanupReceipt(status, r.operation, epoch, r.who, code)
  }

  /** What the tombstone and the manifest decide: an answer, or go on. */
  datatype Verdict = Answer(receipt: CleanupReceipt) | GoOn

  predicate Same(t: Tombstone, r: Request)
    requires t.Pending? || t.Repair? || t.Gone?
  {
    t.operation == r.operation && t.epoch == r.epoch && (r.who.Some? ==> t.who == r.who)
  }

  /** How a cleanup, with or without deletion, meets a tombstone. */
  function CleanupMeets(t: Tombstone, r: Request): Verdict {
    match t
    case Corrupt => Answer(Reply(r, RepairNeeded, r.epoch, InvalidTombstone))
    case Deleted =>
      if r.who.Some? then Answer(Reply(r, Deprovisioned, r.epoch, Fine))
      else if r.epoch == 0 then Answer(Reply(r, Fenced, 0, StaleEpoch))
      else GoOn
    case Pending(operation, epoch, who, _, sound) =>
      if (r.who.Some? || who.Some?) && !sound then Answer(Reply(r, RepairNeeded, r.epoch, InvalidTombstone))
      else if r.who.None? && who.Some? then Answer(Reply(r, Fenced, epoch, StaleEpoch))
      else if !Same(t, r) && r.epoch <= epoch then Answer(Reply(r, Fenced, epoch, StaleEpoch))
      else GoOn
    case Gone(operation, epoch, who) =>
      if r.who.Some? then if r.epoch < epoch then Answer(Reply(r, Fenced, epoch, StaleEpoch)) else GoOn
      else if Same(t, r) then Answer(CleanupReceipt(Deprovisioned, operation, epoch, who, Fine))
      else if r.epoch <= epoch then Answer(Reply(r, Fenced, epoch, StaleEpoch))
      else GoOn
    case Repair(operation, epoch, who) =>
      if !Same(t, r) && r.epoch <= epoch then Answer(Reply(r, Fenced, epoch, StaleEpoch)) else GoOn
  }

  /** How a deletion fence meets a tombstone. */
  function FenceMeets(t: Tombstone, r: Request, now: real): Verdict {
    match t
    case Corrupt => Answer(Reply(r, RepairNeeded, r.epoch, InvalidTombstone))
    case Deleted => Answer(Reply(r, Deprovisioned, r.epoch, Fine))
    case Pending(operation, epoch, who, expires, sound) =>
      if !sound || who.None? then Answer(Reply(r, RepairNeeded, r.epoch, InvalidTombstone))
      else if operation != r.operation then Answer(Reply(r, Fenced, epoch, StaleEpoch))
      else if epoch == r.epoch && who == r.who then
        if expires <= now then Answer(Reply(r, RepairNeeded, r.epoch, TooLate)) else Answer(Reply(r, Fenced, r.epoch, Fine))
      else if r.epoch <= epoch then Answer(Reply(r, Fenced, epoch, StaleEpoch))
      else GoOn
    case Gone(_, epoch, _) => if r.epoch <= epoch then Answer(Reply(r, Fenced, epoch, StaleEpoch)) else GoOn
    case Repair(_, _, _) => GoOn
  }

  function ManifestEpoch(n: Node): Option<int> {
    if n.Directory? && n.files.manifest.Some? then n.files.manifest.value.epoch else None
  }

  function ManifestMeets(n: Node, r: Request): Verdict {
    match ManifestEpoch(n)
    case Some(epoch) => if epoch > r.epoch then Answer(Reply(r, Fenced, epoch, StaleEpoch)) else GoOn
    case None => GoOn
  }

  function CleanupGate(d: Disk, r: Request): Verdict {
    var v := if d.tomb.Some? then CleanupMeets(d.tomb.value, r) else GoOn;
    if v.Answer? then v else ManifestMeets(d.profile, r)
  }

  function FenceGate(d: Disk, r: Request, now: real): Verdict {
    var v := if d.tomb.Some? then FenceMeets(d.tomb.value, r, now) else GoOn;
    if v.Answer? then v else ManifestMeets(d.profile, r)
  }

  function PendingFor(r: Request): Tombstone { Pending(r.operation, r.epoch, r.who, r.expires, true) }
  function RepairFor(r: Request): Tombstone { Repair(r.operation, r.epoch, r.who) }

  /** A deletion leaves no content in its marker; any other cleanup keeps its operation and epoch. */
  function DoneFor(r: Request): Tombstone { if r.who.Some? then Deleted else Gone(r.operation, r.epoch, None) }

  predicate Removable(n: Node) { n.Absent? || (n.Directory? && n.tame) }

  /** What is left of a profile while its directory is being removed, in whatever order. */
  ghost predicate Remainder(n: Node, m: Node) {
    || m == n
    || (n.Directory? && m.Absent?)
    || (n.Directory? && m.Directory? && m.tame == n.tame && m.rest <= n.rest
        && (m.files.manifest == n.files.manifest || m.files.manifest.None?))
  }

  // ---------------------------------------------------------------- whole calls

  /** What can fail during a removal: the spools, the profile tree (leaving a remainder), and the
      temporary siblings (leaving some). */
  datatype Trouble = Trouble(spools: bool, profile: Option<Node>, siblings: Option<Temps>)

  const NO_TROUBLE := Trouble(false, None, None)

  ghost predicate Possible(d: Disk, x: Trouble) {
    && (x.profile.Some? ==> Remainder(d.profile, x.profile.value))
    && (x.siblings.Some? ==> Part(x.siblings.value, d.temps))
    && ((exists k :: k in d.temps && d.temps[k]) ==> x.siblings.Some?)
  }

  /** The outcome of the removal steps. */
  function Removed(d: Disk, x: Trouble): (Disk, bool) {
    if x.spools then (d, false)
    else if x.profile.Some? then (d.(spooled := false, profile := x.profile.value), false)
    else if x.siblings.Some? then (d.(spooled := false, profile := Absent, temps := x.siblings.value), false)
    else (d.(spooled := false, profile := Absent, temps := map[]), true)
  }

  /** `cleanup`, once the request has passed its own checks. */
  function Cleanup(d: Disk, r: Request, now: real, x: Trouble): (CleanupReceipt, Disk) {
    match CleanupGate(d, r)
    case Answer(receipt) => (receipt, d)
    case GoOn =>
      if r.expires <= now then (Reply(r, RepairNeeded, r.epoch, TooLate), d.(tomb := Some(RepairFor(r))))
      else if !Removable(d.profile) then (Reply(r, RepairNeeded, r.epoch, BadProfile), d.(tomb := Some(RepairFor(r))))
      else
        var (after, done) := Removed(d, x);
        if done then (Reply(r, Deprovisioned, r.epoch, Fine), after.(tomb := Some(DoneFor(r))))
        else (Reply(r, RepairNeeded, r.epoch, RemovalFailed), after.(tomb := Some(RepairFor(r))))
  }

  /** The states on disk during a cleanup: untouched, fenced with more and more removed, or final. */
  ghost predicate During(d: Disk, r: Request, now: real, x: Trouble, e: Disk) {
    || e == d
    || e == Cleanup(d, r, now, x).1
    || (CleanupGate(d, r).GoOn? && r.expires > now && e.tomb == Some(PendingFor(r))
        && (e.spooled ==> d.spooled) && Part(e.temps, d.temps) && Remainder(d.profile, e.profile)
        && (e.profile == d.profile || Removable(d.profile)))
  }

  /** `fence_deletion`, once the request has passed its own checks: nothing but the tombstone changes. */
  function Fence(d: Disk, r: Request, now: real): (CleanupReceipt, Disk)
    requires r.who.Some?
  {
    match FenceGate(d, r, now)
    case Answer(receipt) => (receipt, d)
    case GoOn =>
      if r.expires <= now then (Reply(r, RepairNeeded, r.epoch, TooLate), d.(tomb := Some(RepairFor(r))))
      else (Reply(r, Fenced, r.epoch, Fine), d.(tomb := Some(PendingFor(r))))
  }

  // ---------------------------------------------------------------- materialisation

  /** A fresh profile for a seed. */
  function FreshFiles(s: Seed, env: map<Credential, string>): Files {
    Files(
      Some(Manifest(true, 2, s.origin.profileId, s.origin.key, s.Print(), s.origin.chatVersion, Some(s.epoch), true,
                    Some(s.operation), Some(s.generation), Some(ReceiptOf(s)), ManifestMemory(true, Some(s.mode), Some(s.tools), true))),
      Parsed(Written(s)), Some(env), Some(s.personality), true, false, true)
  }

  function FenceReceipt(t: Tombstone, now: real): Receipt {
    match t
    case Pending(_, _, _, expires, true) => if expires <= now then Receipt(RepairRequired, CleanupExpired) else Receipt(FencedOut, ProfileDeprovisioned)
    case Pending(_, _, _, _, false) => Receipt(RepairRequired, InvalidCleanupTombstone)
    case Corrupt => Receipt(RepairRequired, InvalidCleanupTombstone)
    case _ => Receipt(FencedOut, ProfileDeprovisioned)
  }

  /** The states a materialisation goes through, and its receipt. */
  datatype Steps = Steps(receipt: Receipt, trail: seq<Disk>)

  /** `materialize`; `ownFirst` says that the seed's own sibling is listed before any other. */
  function Materialize(w: World, d: Disk, s: Seed, now: real, ownFirst: bool): Steps {
    if d.tomb.Some? then Steps(FenceReceipt(d.tomb.value, now), [])
    else match d.profile
      case Symlink => Steps(Receipt(RepairRequired, SymlinkedProfile), [])
      case NotADirectory => Steps(Receipt(RepairRequired, ProfileIsNotDirectory), [])
      case Directory(files, rest, tame) =>
        var run := Inspect(w, s, files);
        Steps(run.receipt, seq(|run.trail|, i requires 0 <= i < |run.trail| => d.(profile := Directory(run.trail[i], rest, tame))))
      case Absent =>
        var others := d.temps - {s.operation} != map[];
        if s.operation !in d.temps || (others && !ownFirst) then
          if others then Steps(Receipt(RepairRequired, UnknownTemporaryState), []) else Build(w, d, s, [])
        else if d.temps[s.operation] then Steps(Receipt(RepairRequired, SymlinkedTemporaryState), [])
        else
          var swept := d.(temps := d.temps - {s.operation});
          if others then Steps(Receipt(RepairRequired, UnknownTemporaryState), [swept]) else Build(w, swept, s, [swept])
  }

  /** Build in a temporary sibling, then move it into place. */
  function Build(w: World, d: Disk, s: Seed, before: seq<Disk>): Steps {
    var building := d.(temps := d.temps[s.operation := false]);
    match Resolved(w, s)
    case None => Steps(Receipt(RepairRequired, MaterializationFailed), before + [building])
    case Some(env) =>
      Steps(Receipt(Created, NoCode), before + [building, d.(profile := Directory(FreshFiles(s, env), {}, true))])
  }

  // ---------------------------------------------------------------- a tombstone is forever

  /** A removal that has been reported leaves nothing behind. */
  ghost predicate Truthful(d: Disk) {
    d.tomb.Some? && (d.tomb.value.Gone? || d.tomb.value.Deleted?) ==> d.profile == Absent && d.temps == map[] && !d.spooled
  }

  lemma CleanupKeeps(d: Disk, r: Request, now: real, x: Trouble, e: Disk)
    requires Possible(d, x) && During(d, r, now, x, e)
    ensures d.tomb.Some? ==> e.tomb.Some?
    ensures Truthful(d) ==> Truthful(e)
  {
  }

  lemma FenceKeeps(d: Disk, r: Request, now: real)
    requires r.who.Some?
    ensures d.tomb.Some? ==> Fence(d, r, now).1.tomb.Some?
    ensures Fence(d, r, now).1 == d.(tomb := Fence(d, r, now).1.tomb)
    ensures Truthful(d) ==> Truthful(Fence(d, r, now).1)
  {
  }

  /** Under a tombstone a materialisation touches nothing and never answers CREATED or EXISTING;
      without one it writes none. */
  lemma MaterializeKeeps(w: World, d: Disk, s: Seed, now: real, ownFirst: bool)
    ensures var m := Materialize(w, d, s, now, ownFirst);
      && (d.tomb.Some? ==> m.trail == [] && m.receipt.status != Created && m.receipt.status != Existing)
      && (forall e :: e in m.trail ==> e.tomb == d.tomb && e.spooled == d.spooled)
      && (Truthful(d) ==> forall e :: e in m.trail ==> Truthful(e))
  {
    hide Inspect, Resolved;
  }

  /** Every DEPROVISIONED receipt is true, whether it is the first answer or a replay. */
  lemma DeprovisionedIsTrue(d: Disk, r: Request, now: real, x: Trouble)
    requires Truthful(d)
    requires Cleanup(d, r, now, x).0.status == Deprovisioned || (r.who.Some? && Fence(d, r, now).0.status == Deprovisioned)
    ensures var e := if Cleanup(d, r, now, x).0.status == Deprovisioned then Cleanup(d, r, now, x).1 else Fence(d, r, now).1;
      e.profile == Absent && e.temps == map[] && !e.spooled && e.tomb.Some? && (e.tomb.value.Gone? || e.tomb.value.Deleted?)
  {
  }

  // ---------------------------------------------------------------- runs of calls

  /** One call, possibly cut short by a crash. */
  datatype Act =
    | Clean(request: Request, now: real, trouble: Trouble)
    | FenceOff(request: Request, now: real)
    | Make(w: World, seed: Seed, now: real, ownFirst: bool)

  ghost predicate Next(d: Disk, a: Act, e: Disk) {
    match a
    case Clean(r, now, x) => Possible(d, x) && During(d, r, now, x, e)
    case FenceOff(r, now) => r.who.Some? && (e == d || e == Fence(d, r, now).1)
    case Make(w, s, now, first) => e == d || e in Materialize(w, d, s, now, first).trail
  }

  ghost predicate History(run: seq<Disk>, acts: seq<Act>) {
    |run| == |acts| + 1 && forall i :: 0 <= i < |acts| ==> Next(run[i], acts[i], run[i + 1])
  }

  lemma NextKeeps(d: Disk, a: Act, e: Disk)
    requires Next(d, a, e)
    ensures d.tomb.Some? ==> e.tomb.Some?
    ensures Truthful(d) ==> Truthful(e)
    ensures a.Make? && d.tomb.Some? ==> e == d
  {
    match a
    case Clean(r, now, x) => CleanupKeeps(d, r, now, x, e);
    case FenceOff(r, now) => FenceKeeps(d, r, now);
    case Make(w, s, now, first) => MaterializeKeeps(w, d, s, now, first);
  }

  /** Once a profile key has a tombstone it keeps one, whatever calls and crashes follow, and what its
      tombstone says about the removal stays true. */
  lemma {:induction false} TombstonesAreForever(run: seq<Disk>, acts: seq<Act>, i: nat, j: nat)
    requires History(run, acts) && i <= j < |run|
    ensures run[i].tomb.Some? ==> run[j].tomb.Some?
    ensures Truthful(run[i]) ==> Truthful(run[j])
    decreases j - i
  {
    hide Next, Truthful;
    if i < j {
      TombstonesAreForever(run, acts, i, j - 1);
      NextKeeps(run[j - 1], acts[j - 1], run[j]);
    }
  }

  // ---------------------------------------------------------------- resuming a cleanup

  ghost predicate NoLinks(temps: Temps) { forall k :: k in temps ==> !temps[k] }

  /** After a crash anywhere in a cleanup, and even after a failed removal, the same request made again
      before its expiry ends in the state an undisturbed cleanup reaches, and says so. */
  lemma CleanupResumes(d: Disk, r: Request, now: real, x: Trouble, e: Disk, again: Request, later: real)
    requires Possible(d, x) && During(d, r, now, x, e)
    requires CleanupGate(d, r).GoOn? && r.expires > now && Removable(d.profile) && NoLinks(d.temps)
    requires again == r.(expires := again.expires) && again.expires > later
    ensures Cleanup(e, again, later, NO_TROUBLE).1 == Cleanup(d, r, now, NO_TROUBLE).1
    ensures Cleanup(e, again, later, NO_TROUBLE).0 == Cleanup(d, r, now, NO_TROUBLE).0 == Reply(r, Deprovisioned, r.epoch, Fine)
  {
    ResumeIsAdmitted(d, r, now, x, e, again);
    if e.tomb != Some(DoneFor(r)) {
      assert Removed(e, NO_TROUBLE).0.(tomb := None) == Removed(d, NO_TROUBLE).0.(tomb := None);
    }
  }

  /** A request meets its own tombstones, and what is left of the profile, as it met the first ones. */
  lemma ResumeIsAdmitted(d: Disk, r: Request, now: real, x: Trouble, e: Disk, again: Request)
    requires Possible(d, x) && During(d, r, now, x, e)
    requires CleanupGate(d, r).GoOn? && r.expires > now && Removable(d.profile) && again == r.(expires := again.expires)
    ensures if e.tomb == Some(DoneFor(r))
      then CleanupGate(e, again) == Answer(Reply(r, Deprovisioned, r.epoch, Fine))
           && e == Removed(d, NO_TROUBLE).0.(tomb := e.tomb)
      else CleanupGate(e, again).GoOn? && Removable(e.profile)
  {
  }

  // ---------------------------------------------------------------- epochs

  function EpochOf(t: Option<Tombstone>): Option<int> {
    match t
    case Some(Pending(_, epoch, _, _, _)) => Some(epoch)
    case Some(Repair(_, epoch, _)) => Some(epoch)
    case Some(Gone(_, epoch, _)) => Some(epoch)
    case _ => None
  }

  predicate NotBelow(a: Option<Tombstone>, b: Option<Tombstone>) {
    EpochOf(a).Some? && EpochOf(b).Some? ==> EpochOf(a).value <= EpochOf(b).value
  }

  /** A cleanup never lowers the epoch in a tombstone, nor changes anything below the manifest's epoch,
      nor - without deletion - displaces a deletion that is pending. */
  lemma CleanupIsFenced(d: Disk, r: Request, now: real, x: Trouble, e: Disk)
    requires Possible(d, x) && During(d, r, now, x, e)
    ensures NotBelow(d.tomb, e.tomb)
    ensures ManifestEpoch(d.profile).Some? && ManifestEpoch(d.profile).value > r.epoch ==> e == d
    ensures r.who.None? && d.tomb.Some? && d.tomb.value.Pending? && d.tomb.value.who.Some? ==> e == d
    ensures EpochOf(d.tomb).Some? && r.epoch < EpochOf(d.tomb).value ==> e == d
  {
  }

  /** A fence changes nothing below the manifest's epoch either; it lowers the epoch only of a
      tombstone that asks for a repair. */
  lemma FenceIsFenced(d: Disk, r: Request, now: real)
    requires r.who.Some?
    ensures var e := Fence(d, r, now).1;
      && (ManifestEpoch(d.profile).Some? && ManifestEpoch(d.profile).value > r.epoch ==> e == d)
      && (!NotBelow(d.tomb, e.tomb) <==>
            d.tomb.Some? && d.tomb.value.Repair? && r.epoch < d.tomb.value.epoch && ManifestMeets(d.profile, r).GoOn?)
  {
  }

  /** Such a tombstone, and a fence that lowers it. */
  lemma FenceLowersRepair(d: Disk, r: Request, now: real)
    requires d == Disk(Some(Repair("remove", 2, None)), Absent, map[], false)
    requires r == Request("delete", 1, Some(Attempt("attempt", "digest")), now + 1.0)
    ensures EpochOf(Fence(d, r, now).1.tomb) == Some(1) && Fence(d, r, now).0.status == Fenced
  {
  }

  ghost predicate CleanupRun(run: seq<Disk>, acts: seq<Act>) {
    History(run, acts) && forall i :: 0 <= i < |acts| ==> acts[i].Clean?
  }

  ghost predicate Keeps(run: seq<Disk>, i: nat, j: nat)
    requires j < |run|
  {
    forall k :: i <= k <= j ==> EpochOf(run[k].tomb).Some?
  }

  /** Along cleanups the epoch never decreases, as long as the tombstone keeps one: the marker of a
      completed deletion has none. */
  lemma {:induction false} EpochsNeverDecrease(run: seq<Disk>, acts: seq<Act>, i: nat, j: nat)
    requires CleanupRun(run, acts) && i <= j < |run| && Keeps(run, i, j)
    ensures EpochOf(run[i].tomb).value <= EpochOf(run[j].tomb).value
    decreases j - i
  {
    if i < j {
      EpochsNeverDecrease(run, acts, i, j - 1);
      var a := acts[j - 1];
      CleanupIsFenced(run[j - 1], a.request, a.now, a.trouble, run[j]);
    }
  }

  /** An epoch is only ever forgotten by a completed deletion. */
  lemma EpochsAreForgottenByDeletion(d: Disk, r: Request, now: real, x: Trouble, e: Disk)
    requires Possible(d, x) && During(d, r, now, x, e) && EpochOf(d.tomb).Some? && EpochOf(e.tomb).None?
    ensures r.who.Some? && e.tomb == Some(Deleted) && Cleanup(d, r, now, x).0.status == Deprovisioned
  {
  }

  /** After that, any later cleanup without deletion may write a lower epoch than the one deleted:
      for every deletion epoch above 1 there is one that does. */
  lemma ForgottenEpochReturnsLower(r: Request, low: Request, now: real)
    requires r.who.Some? && r.epoch > 1 && r.expires > now && low.who.None? && 0 < low.epoch < r.epoch && low.expires > now
    ensures var d := Disk(Some(PendingFor(r)), Absent, map[], false);
      var e := Cleanup(d, r, now, NO_TROUBLE).1;
      var f := Cleanup(e, low, now, NO_TROUBLE).1;
      EpochOf(d.tomb) == Some(r.epoch) && e.tomb == Some(Deleted) && EpochOf(f.tomb) == Some(low.epoch)
  {
  }

  /** A deletion marker is overwritten exactly by a cleanup without deletion and with an epoch above 0. */
  lemma DeletedIsOverwritten(d: Disk, r: Request, now: real)
    requires d.tomb == Some(Deleted) && Truthful(d)
    ensures Cleanup(d, r, now, NO_TROUBLE).1 != d <==> r.who.None? && r.epoch > 0
  {
  }

  // ---------------------------------------------------------------- materialising twice

  /** A profile just created is recognised by the next materialisation, which changes nothing. */
  lemma CreatedIsThenExisting(w: World, d: Disk, s: Seed, now: real, ownFirst: bool, later: real, first: bool)
    requires w.souls.Valid() && (s.mode == ContextOnly ==> s.tools == NoTools)
    requires Materialize(w, d, s, now, ownFirst).receipt.status == Created
    ensures var trail := Materialize(w, d, s, now, ownFirst).trail;
      trail != [] &&
      (var e := trail[|trail| - 1]; var again := Materialize(w, e, s, later, first);
       again.receipt.status == Existing && forall g :: g in again.trail ==> g == e)
  {
    CreatedEnds(w, d, s, now, ownFirst);
    var env := Resolved(w, s).value;
    FreshIsSettled(w, s, env);
    CurrentStays(w, s, FreshFiles(s, env));
    hide Inspect, FreshFiles, IsCurrent, Refresh, Unbootstrap, Steady, Resolved;
    var trail := Materialize(w, d, s, now, ownFirst).trail;
    DirectoryIsInspected(w, trail[|trail| - 1], s, later, first);
  }

  /** A creation that was cut short is taken up by the next call for the same seed. */
  lemma CreationResumes(w: World, d: Disk, s: Seed, now: real, ownFirst: bool, n: nat, later: real, first: bool)
    requires var m := Materialize(w, d, s, now, ownFirst); m.receipt.status == Created && n + 1 < |m.trail|
    ensures var trail := Materialize(w, d, s, now, ownFirst).trail; var again := Materialize(w, trail[n], s, later, first);
      again.receipt.status == Created && again.trail != [] && again.trail[|again.trail| - 1] == trail[|trail| - 1]
  {
    hide Resolved, FreshFiles, Inspect;
    if d.profile.Directory? {
      InspectNeverCreates(w, s, d.profile.files);
    } else {
      var own := d.temps[s.operation := false];
      assert d.temps - {s.operation} == map[];
      assert own - {s.operation} == map[];
      var none: Temps := map[];
      assert none[s.operation := false] - {s.operation} == none - {s.operation} == none;
    }
  }

  lemma CreatedEnds(w: World, d: Disk, s: Seed, now: real, ownFirst: bool)
    requires Materialize(w, d, s, now, ownFirst).receipt.status == Created
    ensures var trail := Materialize(w, d, s, now, ownFirst).trail;
      && Resolved(w, s).Some? && trail != []
      && trail[|trail| - 1].tomb.None? && trail[|trail| - 1].profile == Directory(FreshFiles(s, Resolved(w, s).value), {}, true)
  {
    hide Resolved, FreshFiles;
    if d.profile.Directory? { InspectNeverCreates(w, s, d.profile.files); }
  }

  lemma InspectNeverCreates(w: World, s: Seed, f: Files)
    ensures Inspect(w, s, f).receipt.status != Created
  {
    hide Choose, Configure, Refresh, FirstUpgraded, FirstOk, Complete, Stamp, Unbootstrap;
  }

  lemma DirectoryIsInspected(w: World, e: Disk, s: Seed, later: real, first: bool)
    requires e.tomb.None? && e.profile.Directory?
    ensures var m := Materialize(w, e, s, later, first); var run := Inspect(w, s, e.profile.files);
      m.receipt == run.receipt
      && (forall i :: 0 <= i < |m.trail| ==> i < |run.trail| && m.trail[i] == e.(profile := e.profile.(files := run.trail[i])))
  {
    hide Inspect;
  }

  lemma FreshIsSettled(w: World, s: Seed, env: map<Credential, string>)
    requires w.souls.Valid() && Resolved(w, s) == Some(env)
    ensures var g := FreshFiles(s, env);
      && IsCurrent(s, g) && Refresh(w, s, g) == Some(g) && Unbootstrap(w, s, g) == g && Steady(s, g)
      && Remember(s, g.manifest.value) == g.manifest.value
  {
    assert env + env == env;
  }
}
