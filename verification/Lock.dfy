/**
 The publish lock: one file that names the process holding it.

 `LockFile` is the file with the program's operations on it. Two systems of
 processes share such a file. In the first, taking the lock is one step. In the
 second, creating the file and writing it are two steps, and so are reading a
 dead owner and overwriting it; a rename gives the path a new inode, and a
 write through an old handle does not reach it. Removing the file, renaming
 over it, and reading it are single steps in both, and a write lands whole or
 not at all.
 */
module Lock {
  import opened JsonGrammar
  import opened JsonPrinter
  import opened Wrappers

  type Pid = p: int | 0 <= p < 0x1_0000_0000

  // ---- what the file says -------------------------------------------------

  /** `Json::get`: the first member with this key. */
  function Lookup(members: seq<Member>, key: string): Option<Json> {
    if members == [] then None
    else if members[0].key == key then Some(members[0].value)
    else Lookup(members[1..], key)
  }

  /** `value as u32`. */
  function AsU32(x: real): Pid {
    if x <= 0.0 then 0 else if x >= 4294967295.0 then 4294967295 else x.Floor
  }

  /** The process that a lock file names; anything unreadable names nobody. */
  function Owner(text: string): Option<Pid> {
    match ParseF(text)
    case Err => None
    case Ok(doc) =>
      if !doc.Obj? then None
      else match Lookup(doc.members, "pid")
        case Some(Num(x)) => Some(AsU32(x))
        case _ => None
  }

  function PayloadDoc(pid: Pid, release: string, at: string, from: Option<Pid>): Json {
    Obj([
      Member("pid", Num(pid as real)),
      Member("release_id", Str(release)),
      Member("acquired_at", Str(at)),
      Member("reclaimed_from_pid", if from.Some? then Num(from.value as real) else Null)
    ])
  }

  lemma PayloadPrintable(pid: Pid, release: string, at: string, from: Option<Pid>)
    ensures Printable(PayloadDoc(pid, release, at, from))
  {
    var ms := PayloadDoc(pid, release, at, from).members;
    PidPrintable(pid);
    if from.Some? {
      PidPrintable(from.value);
    }
    hide Printable, Whole;
    assert Printable(Null) by { NullPrintable(); }
    assert Printable(Str(release)) && Printable(Str(at)) by { StrPrintable(release); StrPrintable(at); }
    assert [ms[3]][1..] == [];
    assert [ms[2], ms[3]][1..] == [ms[3]];
    assert [ms[1], ms[2], ms[3]][1..] == [ms[2], ms[3]];
    assert ms[1..] == [ms[1], ms[2], ms[3]];
    assert AllMembersPrintable([ms[3]]);
    assert AllMembersPrintable([ms[2], ms[3]]);
    assert AllMembersPrintable([ms[1], ms[2], ms[3]]);
    ObjPrintable(ms);
  }

  lemma PidPrintable(pid: Pid)
    ensures Printable(Num(pid as real))
  {
    assert (pid as real).Floor == pid;
  }

  lemma NullPrintable()
    ensures Printable(Null)
  {
  }

  lemma StrPrintable(text: string)
    ensures Printable(Str(text))
  {
  }

  lemma ObjPrintable(members: seq<Member>)
    requires AllMembersPrintable(members)
    ensures Printable(Obj(members))
  {
  }

  /** The text that `acquire` writes. */
  function Payload(pid: Pid, release: string, at: string, from: Option<Pid>): string {
    PayloadPrintable(pid, release, at, from);
    PrettyText(PayloadDoc(pid, release, at, from))
  }

  /** What a process writes names that process, whatever the other fields hold. */
  lemma PayloadNamesWriter(pid: Pid, release: string, at: string, from: Option<Pid>)
    ensures Owner(Payload(pid, release, at, from)) == Some(pid)
  {
    PayloadPrintable(pid, release, at, from);
    hide Printable, ParseF, PrettyText;
    var doc := PayloadDoc(pid, release, at, from);
    PrintParse(doc);
    assert Lookup(doc.members, "pid") == Some(Num(pid as real));
  }

  /** What a process writes is read back field by field. */
  lemma {:induction false} PayloadFields(pid: Pid, release: string, at: string, from: Option<Pid>)
    ensures var r := ParseF(Payload(pid, release, at, from));
      r.Ok? && r.value.Obj? &&
      var ms := r.value.members;
      Lookup(ms, "pid") == Some(Num(pid as real)) && Lookup(ms, "release_id") == Some(Str(release)) &&
      Lookup(ms, "acquired_at") == Some(Str(at)) &&
      Lookup(ms, "reclaimed_from_pid") == Some(if from.Some? then Num(from.value as real) else Null)
  {
    PayloadPrintable(pid, release, at, from);
    hide Printable, ParseF, PrettyText, Lookup;
    var doc := PayloadDoc(pid, release, at, from);
    PrintParse(doc);
    var ms := doc.members;
    LookupFirst([], ms[0], ms[1..]);
    LookupFirst(ms[..1], ms[1], ms[2..]);
    LookupFirst(ms[..2], ms[2], ms[3..]);
    LookupFirst(ms[..3], ms[3], []);
    assert ms == [] + [ms[0]] + ms[1..] && ms == ms[..1] + [ms[1]] + ms[2..];
    assert ms == ms[..2] + [ms[2]] + ms[3..] && ms == ms[..3] + [ms[3]] + [];
  }

  /** Of several members with a key the first is found. */
  lemma {:induction false} LookupFirst(before: seq<Member>, m: Member, after: seq<Member>)
    requires forall i :: 0 <= i < |before| ==> before[i].key != m.key
    ensures Lookup(before + [m] + after, m.key) == Some(m.value)
  {
    if before == [] {
      assert before + [m] + after == [m] + after;
    } else {
      assert (before + [m] + after)[1..] == before[1..] + [m] + after;
      LookupFirst(before[1..], m, after);
    }
  }

  /** A number in the file names the process that it comes to when rounded down, within the range of process ids. */
  lemma {:induction false} OwnerRoundsDown(x: real)
    ensures 0.0 <= x < 4294967296.0 ==> AsU32(x) as real <= x < AsU32(x) as real + 1.0
    ensures x < 0.0 ==> AsU32(x) == 0
    ensures x >= 4294967296.0 ==> AsU32(x) == 0xFFFF_FFFF
  {
  }

  /** A file that was created and not yet written names nobody. */
  lemma EmptyNamesNobody()
    ensures Owner("") == None
  {
  }

  function Named(file: Option<string>): Option<Pid> {
    if file.None? then None else Owner(file.value)
  }

  predicate Names(file: Option<string>, p: Pid) {
    file.Some? && Owner(file.value) == Some(p)
  }

  // ---- the operations -----------------------------------------------------

  datatype Outcome = Held | Busy | Unverified | Failed

  /** Which file operations succeed; opening includes everything that is not the file already being there. */
  datatype Disk = Disk(directory: bool, open: bool, write: bool, read: bool, replace: bool)

  /** What reading the file yields: nothing at all when it cannot be read. */
  function Seen(file: Option<string>, disk: Disk): Option<string> {
    if file.Some? && !disk.read then Some("") else file
  }

  /** Answers about running processes; `None` when the question could not be asked. */
  type Ps = Pid -> Option<bool>

  /** What keeps `p` from taking the lock: another process, said to be alive or not checkable. */
  function Refusal(file: Option<string>, p: Pid, ps: Ps): Option<Outcome> {
    if file.None? then None
    else match Owner(file.value)
      case None => None
      case Some(q) =>
        if q == p || ps(q) == Some(false) then None
        else if ps(q) == Some(true) then Some(Busy)
        else Some(Unverified)
  }

  class LockFile {
    var text: Option<string>

    constructor (text: Option<string>)
      ensures this.text == text
    {
      this.text := text;
    }

    /** `Lock::acquire`; a write that fails goes unnoticed and leaves the created file empty. */
    method Acquire(pid: Pid, release: string, at: string, ps: Ps, disk: Disk) returns (outcome: Outcome)
      modifies this
      ensures !disk.directory || !disk.open ==> outcome == Failed && text == old(text)
      ensures disk.directory && disk.open ==>
        var seen := Seen(old(text), disk);
        var owner := Named(seen);
        if owner.Some? && owner.value != pid && ps(owner.value) != Some(false) then
          outcome == (if ps(owner.value) == Some(true) then Busy else Unverified) && text == old(text)
        else if old(text).Some? && !disk.replace then outcome == Failed && text == old(text)
        else if old(text).None? && !disk.write then outcome == Held && text == Some("")
        else outcome == Held && Names(text, pid) && text == Some(Payload(pid, release, at, owner))
    {
      PayloadNamesWriter(pid, release, at, None);
      if !disk.directory || !disk.open {
        return Failed;
      }
      if text.None? {
        text := Some(if disk.write then Payload(pid, release, at, None) else "");
        return Held;
      }
      var owner := Owner(if disk.read then text.value else "");
      if owner.Some? && owner.value != pid {
        var alive := ps(owner.value);
        if alive.None? {
          return Unverified;
        }
        if alive.value {
          return Busy;
        }
      }
      if !disk.replace {
        return Failed;
      }
      PayloadNamesWriter(pid, release, at, owner);
      text := Some(Payload(pid, release, at, owner));
      return Held;
    }

    /** Dropping the lock removes the file, whoever it names. */
    method Release()
      modifies this
      ensures text == None
    {
      text := None;
    }

    method VerifyHeld(pid: Pid) returns (ok: bool)
      ensures ok <==> Names(text, pid)
    {
      if text.None? {
        return false;
      }
      ok := Owner(text.value) == Some(pid);
    }
  }

  // ---- acquiring as one step ----------------------------------------------

  /** `used` remembers every process id that has run. */
  datatype System = System(file: Option<string>, alive: set<Pid>, holding: set<Pid>, used: set<Pid>)

  /** Checking the lock changes nothing, so it is no step. */
  datatype Step =
    | Spawn(p: Pid)
    | Take(p: Pid, release: string, at: string, ps: Ps)
    | Drop(p: Pid)
    | Crash(p: Pid)

  predicate Truthful(ps: Ps, alive: set<Pid>) {
    forall q :: ps(q).Some? ==> ps(q).value == (q in alive)
  }

  ghost predicate Enabled(s: System, step: Step) {
    match step
    case Spawn(p) => p !in s.alive
    case Take(p, _, _, ps) => p in s.alive && p !in s.holding && Truthful(ps, s.alive)
    case Drop(p) => p in s.holding
    case Crash(p) => p in s.alive
  }

  ghost function Apply(s: System, step: Step): System
    requires Enabled(s, step)
  {
    match step
    case Spawn(p) => s.(alive := s.alive + {p}, used := s.used + {p})
    case Take(p, release, at, ps) =>
      if Refusal(s.file, p, ps).Some? then s
      else
        s.(file := Some(Payload(p, release, at, Named(s.file))), holding := s.holding + {p})
    case Drop(p) => s.(file := None, holding := s.holding - {p})
    case Crash(p) => s.(alive := s.alive - {p}, holding := s.holding - {p})
  }

  /** Whether the steps can happen one after the other. */
  ghost predicate Possible(s: System, steps: seq<Step>)
    decreases |steps|
  {
    steps == [] || (Enabled(s, steps[0]) && Possible(Apply(s, steps[0]), steps[1..]))
  }

  ghost function After(s: System, steps: seq<Step>): System
    requires Possible(s, steps)
    decreases |steps|
  {
    if steps == [] then s else After(Apply(s, steps[0]), steps[1..])
  }

  /** Every holder is alive and is the process that the file names. */
  ghost predicate Exclusive(s: System) {
    forall p :: p in s.holding ==> p in s.alive && Names(s.file, p)
  }

  lemma StepKeepsExclusive(s: System, step: Step)
    requires Exclusive(s) && Enabled(s, step)
    ensures Exclusive(Apply(s, step))
  {
    hide Owner;
    if step.Take? {
      PayloadNamesWriter(step.p, step.release, step.at, Named(s.file));
    }
  }

  /**
   In every reachable state at most one live process holds the lock, and the
   file names it. The file may hold anything at the start, process ids may be
   used again, and a process may take the lock again after dropping it.
   */
  lemma {:induction false} OneHolder(s: System, steps: seq<Step>)
    requires Exclusive(s) && Possible(s, steps)
    ensures var e := After(s, steps);
      Exclusive(e) && forall p, q :: p in e.holding && q in e.holding ==> p == q
    decreases |steps|
  {
    hide Owner;
    if steps != [] {
      StepKeepsExclusive(s, steps[0]);
      OneHolder(Apply(s, steps[0]), steps[1..]);
    }
  }

  /** The file names a live process only while that process holds the lock. */
  ghost predicate Exact(s: System) {
    Exclusive(s) && s.alive <= s.used &&
    forall q :: Names(s.file, q) ==> q in s.used && (q in s.alive ==> q in s.holding)
  }

  ghost predicate NoReuse(s: System, steps: seq<Step>)
    requires Possible(s, steps)
    decreases |steps|
  {
    steps == [] || ((steps[0].Spawn? ==> steps[0].p !in s.used) && NoReuse(Apply(s, steps[0]), steps[1..]))
  }

  lemma {:induction false} ExactAfter(s: System, steps: seq<Step>)
    requires Exact(s) && Possible(s, steps) && NoReuse(s, steps)
    ensures Exact(After(s, steps))
    decreases |steps|
  {
    hide Owner;
    if steps != [] {
      var step := steps[0];
      StepKeepsExclusive(s, step);
      if step.Take? {
        PayloadNamesWriter(step.p, step.release, step.at, Named(s.file));
      }
      ExactAfter(Apply(s, step), steps[1..]);
    }
  }

  /**
   Without reused process ids, taking the lock succeeds exactly when nobody
   holds it, provided every question about a process is answered: a crashed
   holder never blocks the next one, and a live one always does.
   */
  lemma SucceedsExactlyWhenFree(s: System, steps: seq<Step>, p: Pid, ps: Ps)
    requires Exact(s) && Possible(s, steps) && NoReuse(s, steps)
    requires var e := After(s, steps);
      p in e.alive && p !in e.holding && Truthful(ps, e.alive) && forall q :: ps(q).Some?
    ensures Refusal(After(s, steps).file, p, ps).None? <==> After(s, steps).holding == {}
  {
    hide Owner;
    ExactAfter(s, steps);
    var e := After(s, steps);
    if e.holding != {} {
      var h :| h in e.holding;
      assert Names(e.file, h);
    }
  }

  // ---- acquiring in several steps -----------------------------------------

  datatype File = File(inode: nat, text: string)

  /** Where a live process is in `Lock::acquire`. */
  datatype Phase = Idle | Created(inode: nat) | Exists | Asking(owner: Pid) | Reclaiming(from: Option<Pid>) | Holding

  datatype Split = Split(file: Option<File>, next: nat, procs: map<Pid, Phase>)

  datatype Move =
    | Start(p: Pid)
    | Create(p: Pid)
    | Write(p: Pid, release: string, at: string, landed: bool)
    | Refused(p: Pid)
    | Read(p: Pid)
    | Unread(p: Pid)
    | Answer(p: Pid, alive: Option<bool>)
    | Overwrite(p: Pid, release: string, at: string)
    | GiveUp(p: Pid)
    | Remove(p: Pid)
    | Die(p: Pid)

  predicate At(s: Split, p: Pid, phase: Phase) {
    p in s.procs && s.procs[p] == phase
  }

  predicate Can(s: Split, m: Move) {
    match m
    case Start(p) => p !in s.procs
    case Create(p) => At(s, p, Idle) && s.file.None?
    case Write(p, _, _, _) => p in s.procs && s.procs[p].Created?
    case Refused(p) => At(s, p, Idle) && s.file.Some?
    case Read(p) => At(s, p, Exists)
    case Unread(p) => At(s, p, Exists)
    case Answer(p, alive) =>
      p in s.procs && s.procs[p].Asking? && (alive.Some? ==> alive.value == (s.procs[p].owner in s.procs))
    case Overwrite(p, _, _) => p in s.procs && s.procs[p].Reclaiming?
    case GiveUp(p) => p in s.procs && s.procs[p].Reclaiming?
    case Remove(p) => At(s, p, Holding)
    case Die(p) => p in s.procs
  }

  function Enter(s: Split, p: Pid, phase: Phase): Split {
    s.(procs := s.procs[p := phase])
  }

  function Text(s: Split): Option<string> {
    if s.file.None? then None else Some(s.file.value.text)
  }

  /** A file that vanished before it was read names nobody. */
  function AfterRead(p: Pid, owner: Option<Pid>): Phase {
    if owner.Some? && owner.value != p then Asking(owner.value) else Reclaiming(owner)
  }

  function Moved(s: Split, m: Move): Split
    requires Can(s, m)
  {
    match m
    case Start(p) => Enter(s, p, Idle)
    case Create(p) => Enter(s, p, Created(s.next)).(file := Some(File(s.next, "")), next := s.next + 1)
    case Write(p, release, at, landed) =>
      var inode := s.procs[p].inode;
      if landed && s.file.Some? && s.file.value.inode == inode then
        Enter(s, p, Holding).(file := Some(File(inode, Payload(p, release, at, None))))
      else Enter(s, p, Holding)
    case Refused(p) => Enter(s, p, Exists)
    case Read(p) => Enter(s, p, AfterRead(p, Named(Text(s))))
    case Unread(p) => Enter(s, p, Reclaiming(None))
    case Answer(p, alive) => Enter(s, p, if alive == Some(false) then Reclaiming(Some(s.procs[p].owner)) else Idle)
    case Overwrite(p, release, at) =>
      var from := s.procs[p].from;
      Enter(s, p, Holding).(file := Some(File(s.next, Payload(p, release, at, from))), next := s.next + 1)
    case GiveUp(p) => Enter(s, p, Idle)
    case Remove(p) => Enter(s, p, Idle).(file := None)
    case Die(p) => s.(procs := s.procs - {p})
  }

  predicate Runs(s: Split, moves: seq<Move>)
    decreases |moves|
  {
    moves == [] || (Can(s, moves[0]) && Runs(Moved(s, moves[0]), moves[1..]))
  }

  function End(s: Split, moves: seq<Move>): Split
    requires Runs(s, moves)
    decreases |moves|
  {
    if moves == [] then s else End(Moved(s, moves[0]), moves[1..])
  }

  /** `p` holds the lock at the start and keeps it to the end. */
  predicate Keeps(s: Split, moves: seq<Move>, p: Pid)
    requires Runs(s, moves)
    decreases |moves|
  {
    At(s, p, Holding) && (moves == [] || Keeps(Moved(s, moves[0]), moves[1..], p))
  }

  lemma OthersNameOthers(s: Split, m: Move, p: Pid)
    requires Can(s, m) && At(s, p, Holding) && At(Moved(s, m), p, Holding) && !Names(Text(s), p)
    ensures !Names(Text(Moved(s, m)), p)
  {
    EmptyNamesNobody();
    hide Owner;
    if m.Write? {
      PayloadNamesWriter(m.p, m.release, m.at, None);
    } else if m.Overwrite? {
      PayloadNamesWriter(m.p, m.release, m.at, s.procs[m.p].from);
    }
  }

  /** A holder that was overtaken once fails the check in every later state. */
  lemma {:induction false} OvertakenStaysLost(s: Split, moves: seq<Move>, p: Pid)
    requires Runs(s, moves) && Keeps(s, moves, p) && !Names(Text(s), p)
    ensures !Names(Text(End(s, moves)), p)
    decreases |moves|
  {
    if moves != [] {
      assert Keeps(Moved(s, moves[0]), moves[1..], p);
      OthersNameOthers(s, moves[0], p);
      OvertakenStaysLost(Moved(s, moves[0]), moves[1..], p);
    }
  }

  /** The state after the first `k` moves. */
  function Prefix(s: Split, moves: seq<Move>, k: nat): Split
    requires Runs(s, moves) && k <= |moves|
    decreases k
  {
    if k == 0 then s else Prefix(Moved(s, moves[0]), moves[1..], k - 1)
  }

  lemma {:induction false} PrefixSplits(s: Split, moves: seq<Move>, p: Pid, k: nat)
    requires Runs(s, moves) && Keeps(s, moves, p) && k <= |moves|
    ensures var mid := Prefix(s, moves, k);
      Runs(mid, moves[k..]) && Keeps(mid, moves[k..], p) && End(mid, moves[k..]) == End(s, moves)
    decreases k
  {
    if k == 0 {
      assert moves[0..] == moves;
    } else {
      PrefixSplits(Moved(s, moves[0]), moves[1..], p, k - 1);
      assert moves[1..][k - 1..] == moves[k..];
    }
  }

  /** The check passes exactly when nobody overtook the holder at any time since it held the lock. */
  lemma CheckCertifies(s: Split, moves: seq<Move>, p: Pid)
    requires Runs(s, moves) && Keeps(s, moves, p)
    ensures Names(Text(End(s, moves)), p) <==>
      forall k: nat :: k <= |moves| ==> Names(Text(Prefix(s, moves, k)), p)
  {
    hide Owner;
    forall k: nat | k <= |moves| && !Names(Text(Prefix(s, moves, k)), p)
      ensures !Names(Text(End(s, moves)), p)
    {
      PrefixSplits(s, moves, p, k);
      OvertakenStaysLost(Prefix(s, moves, k), moves[k..], p);
    }
    PrefixSplits(s, moves, p, |moves|);
    assert moves[|moves|..] == [];
  }

  // ---- late writes ---------------------------------------------------------

  predicate Creating(s: Split, p: Pid) {
    p in s.procs && s.procs[p].Created?
  }

  /** `p` is past creating the file: about to write it, or holding the lock. */
  predicate Past(s: Split, p: Pid) {
    Creating(s, p) || At(s, p, Holding)
  }

  /** The file is not, and can no longer become, one that names `p`. */
  predicate Lost(s: Split, p: Pid) {
    Past(s, p) && !Names(Text(s), p) &&
    (Creating(s, p) ==>
      s.procs[p].inode < s.next && (s.file.Some? ==> s.file.value.inode != s.procs[p].inode))
  }

  predicate StaysPast(s: Split, moves: seq<Move>, p: Pid)
    requires Runs(s, moves)
    decreases |moves|
  {
    Past(s, p) && (moves == [] || StaysPast(Moved(s, moves[0]), moves[1..], p))
  }

  lemma {:induction false} LostStays(s: Split, m: Move, p: Pid)
    requires Can(s, m) && Lost(s, p) && Past(Moved(s, m), p)
    ensures Lost(Moved(s, m), p)
  {
    EmptyNamesNobody();
    hide Owner, Payload;
    if m.Write? {
      PayloadNamesWriter(m.p, m.release, m.at, None);
    } else if m.Overwrite? {
      PayloadNamesWriter(m.p, m.release, m.at, s.procs[m.p].from);
    }
  }

  /**
   A process whose file was renamed over or removed before it wrote its payload
   writes to nothing: it holds the lock from then on, and the file names it in
   no later state.
   */
  lemma {:induction false} LateWriterStaysLost(s: Split, moves: seq<Move>, p: Pid)
    requires Runs(s, moves) && StaysPast(s, moves, p) && Lost(s, p)
    ensures Lost(End(s, moves), p)
    decreases |moves|
  {
    if moves != [] {
      LostStays(s, moves[0], p);
      LateWriterStaysLost(Moved(s, moves[0]), moves[1..], p);
    }
  }

  // ---- when at most one process holds --------------------------------------

  ghost predicate AtMostOne(s: Split) {
    forall p, q :: At(s, p, Holding) && At(s, q, Holding) ==> p == q
  }

  /** A file that was created and not yet written is empty, is one process's own, and names nobody who creates. */
  ghost predicate Handles(s: Split) {
    (s.file.Some? ==> s.file.value.inode < s.next) &&
    (forall p :: Creating(s, p) ==>
      s.procs[p].inode < s.next && !Names(Text(s), p) &&
      (s.file.Some? && s.file.value.inode == s.procs[p].inode ==> s.file.value.text == "")) &&
    (forall p, q :: Creating(s, p) && Creating(s, q) && s.procs[p].inode == s.procs[q].inode ==> p == q)
  }

  /** Every holder is the process that the file names, so there is at most one. */
  ghost predicate Sole(s: Split) {
    Handles(s) && forall p :: At(s, p, Holding) ==> Names(Text(s), p)
  }

  /** Nobody else holds the lock when a process overwrites the file, and what a creator writes lands in the file. */
  ghost predicate Guard(s: Split, m: Move) {
    match m
    case Overwrite(p, _, _) => forall q :: At(s, q, Holding) ==> q == p
    case Write(p, _, _, landed) =>
      landed && s.file.Some? && Creating(s, p) && s.file.value.inode == s.procs[p].inode
    case _ => true
  }

  lemma {:induction false} SoleIsOne(s: Split)
    requires Sole(s)
    ensures AtMostOne(s)
  {
    hide Owner;
  }

  /** Processes that have not begun may start on any file. */
  lemma {:induction false} IdleIsSole(s: Split)
    requires s.file.Some? ==> s.file.value.inode < s.next
    requires forall p :: p in s.procs ==> s.procs[p] == Idle
    ensures Sole(s)
  {
  }

  /** A move changes the phase of its own process only. */
  lemma {:induction false} OthersStay(s: Split, m: Move)
    requires Can(s, m)
    ensures forall q :: q != m.p ==>
      (q in Moved(s, m).procs <==> q in s.procs) && (q in s.procs ==> Moved(s, m).procs[q] == s.procs[q])
    ensures forall q :: q != m.p ==> (At(Moved(s, m), q, Holding) <==> At(s, q, Holding))
    ensures At(Moved(s, m), m.p, Holding) <==> m.Write? || m.Overwrite?
  {
    hide Owner, Payload;
  }

  /** What the file says after a move. */
  lemma {:induction false} FileAfter(s: Split, m: Move)
    requires Can(s, m)
    ensures m.Overwrite? ==> Named(Text(Moved(s, m))) == Some(m.p)
    ensures m.Write? && Guard(s, m) ==> Named(Text(Moved(s, m))) == Some(m.p)
    ensures m.Write? && !Guard(s, m) ==> Moved(s, m).file == s.file
    ensures m.Create? ==> Named(Text(Moved(s, m))) == None
    ensures m.Remove? ==> Moved(s, m).file == None
    ensures !m.Overwrite? && !m.Write? && !m.Create? && !m.Remove? ==> Moved(s, m).file == s.file
  {
    EmptyNamesNobody();
    hide Owner, Payload;
    if m.Write? {
      PayloadNamesWriter(m.p, m.release, m.at, None);
    } else if m.Overwrite? {
      PayloadNamesWriter(m.p, m.release, m.at, s.procs[m.p].from);
    }
  }

  /** Inode numbers are handed out in order, and a creator has a new one. */
  lemma {:induction false} InodesAfter(s: Split, m: Move)
    requires Can(s, m)
    ensures var t := Moved(s, m);
      s.next <= t.next &&
      (m.Create? ==> t.file == Some(File(s.next, "")) && t.next == s.next + 1) &&
      (m.Overwrite? ==> t.file.Some? && t.file.value.inode == s.next && t.next == s.next + 1) &&
      (m.Write? && Guard(s, m) ==> t.file.Some? && s.file.Some? && t.file.value.inode == s.file.value.inode)
    ensures Creating(Moved(s, m), m.p) ==> m.Create? && Moved(s, m).procs[m.p].inode == s.next
  {
    hide Owner, Payload;
  }

  lemma {:induction false} HandlesKept(s: Split, m: Move)
    requires Can(s, m) && Handles(s)
    ensures Handles(Moved(s, m))
  {
    OthersStay(s, m);
    FileAfter(s, m);
    InodesAfter(s, m);
    hide Owner, Payload, Moved;
    var t := Moved(s, m);
    forall p | Creating(t, p)
      ensures t.procs[p].inode < t.next && !Names(Text(t), p)
      ensures t.file.Some? && t.file.value.inode == t.procs[p].inode ==> t.file.value.text == ""
    {
      if p != m.p {
        assert Creating(s, p);
      }
    }
    forall p, q | Creating(t, p) && Creating(t, q) && t.procs[p].inode == t.procs[q].inode
      ensures p == q
    {
      assert p != m.p ==> Creating(s, p);
      assert q != m.p ==> Creating(s, q);
    }
  }

  /** A move keeps every holder named exactly when its guard holds. */
  lemma {:induction false} SoleExactly(s: Split, m: Move)
    requires Can(s, m) && Sole(s)
    ensures Sole(Moved(s, m)) <==> Guard(s, m)
  {
    EmptyNamesNobody();
    HandlesKept(s, m);
    OthersStay(s, m);
    FileAfter(s, m);
    hide Owner, Moved;
    if m.Overwrite? && !Guard(s, m) {
      var q :| At(s, q, Holding) && q != m.p;
      assert At(Moved(s, m), q, Holding);
    }
  }

  lemma {:induction false} PrefixRuns(s: Split, moves: seq<Move>, k: nat)
    requires Runs(s, moves) && k < |moves|
    ensures Can(Prefix(s, moves, k), moves[k])
    ensures Prefix(s, moves, k + 1) == Moved(Prefix(s, moves, k), moves[k])
    decreases k
  {
    if k > 0 {
      PrefixRuns(Moved(s, moves[0]), moves[1..], k - 1);
    }
  }

  ghost predicate SoleThroughout(s: Split, moves: seq<Move>)
    requires Runs(s, moves)
  {
    forall k: nat :: k <= |moves| ==> Sole(Prefix(s, moves, k))
  }

  ghost predicate Guarded(s: Split, moves: seq<Move>)
    requires Runs(s, moves)
  {
    forall k: nat :: k < |moves| ==> Guard(Prefix(s, moves, k), moves[k])
  }

  lemma {:induction false} GuardedPrefix(s: Split, moves: seq<Move>, k: nat)
    requires Runs(s, moves) && Sole(s) && Guarded(s, moves) && k <= |moves|
    ensures Sole(Prefix(s, moves, k))
    decreases k
  {
    if k > 0 {
      GuardedPrefix(s, moves, k - 1);
      PrefixRuns(s, moves, k - 1);
      hide Sole, Guard;
      SoleExactly(Prefix(s, moves, k - 1), moves[k - 1]);
    }
  }

  /**
   With separate steps, in any run: every holder is the process that the file
   names, at every moment, if and only if every overwrite happens while nobody
   else holds the lock and every first write lands in the file that the writer
   created, still in place.
   */
  lemma {:induction false} ExclusiveExactlyWhenGuarded(s: Split, moves: seq<Move>)
    requires Runs(s, moves) && Sole(s)
    ensures SoleThroughout(s, moves) <==> Guarded(s, moves)
    ensures Guarded(s, moves) ==> OneThroughout(s, moves)
  {
    hide Sole, Guard, AtMostOne;
    if SoleThroughout(s, moves) {
      forall k: nat | k < |moves|
        ensures Guard(Prefix(s, moves, k), moves[k])
      {
        PrefixRuns(s, moves, k);
        SoleExactly(Prefix(s, moves, k), moves[k]);
      }
    }
    if Guarded(s, moves) {
      forall k: nat | k <= |moves|
        ensures Sole(Prefix(s, moves, k)) && AtMostOne(Prefix(s, moves, k))
      {
        GuardedPrefix(s, moves, k);
        SoleIsOne(Prefix(s, moves, k));
      }
    }
  }

  /** The guard of an overwrite is what reading the file once more, at that moment, would tell. */
  lemma {:induction false} OverwriteSafeExactly(s: Split, p: Pid, release: string, at: string)
    requires Sole(s) && Can(s, Overwrite(p, release, at))
    ensures Guard(s, Overwrite(p, release, at)) <==>
      (Named(Text(s)).None? || !At(s, Named(Text(s)).value, Holding))
  {
    hide Owner;
  }

  /** Whoever starts to hold the lock is the only one to. */
  ghost predicate Alone(s: Split, m: Move) {
    m.Overwrite? || m.Write? ==> forall q :: At(s, q, Holding) ==> q == m.p
  }

  lemma {:induction false} OneExactly(s: Split, m: Move)
    requires Can(s, m) && AtMostOne(s)
    ensures AtMostOne(Moved(s, m)) <==> Alone(s, m)
  {
    OthersStay(s, m);
    hide Moved;
    if !Alone(s, m) {
      var q :| At(s, q, Holding) && q != m.p;
      assert At(Moved(s, m), q, Holding);
    }
  }

  ghost predicate OneThroughout(s: Split, moves: seq<Move>)
    requires Runs(s, moves)
  {
    forall k: nat :: k <= |moves| ==> AtMostOne(Prefix(s, moves, k))
  }

  ghost predicate EachAlone(s: Split, moves: seq<Move>)
    requires Runs(s, moves)
  {
    forall k: nat :: k < |moves| ==> Alone(Prefix(s, moves, k), moves[k])
  }

  lemma {:induction false} AlonePrefix(s: Split, moves: seq<Move>, k: nat)
    requires Runs(s, moves) && AtMostOne(s) && EachAlone(s, moves) && k <= |moves|
    ensures AtMostOne(Prefix(s, moves, k))
    decreases k
  {
    if k > 0 {
      AlonePrefix(s, moves, k - 1);
      PrefixRuns(s, moves, k - 1);
      hide AtMostOne, Alone;
      OneExactly(Prefix(s, moves, k - 1), moves[k - 1]);
    }
  }

  /** In any run, at most one live process holds the lock at every moment exactly when each begins to hold it alone. */
  lemma {:induction false} OneHolderExactlyWhenAlone(s: Split, moves: seq<Move>)
    requires Runs(s, moves) && AtMostOne(s)
    ensures OneThroughout(s, moves) <==> EachAlone(s, moves)
  {
    hide AtMostOne, Alone;
    if OneThroughout(s, moves) {
      forall k: nat | k < |moves|
        ensures Alone(Prefix(s, moves, k), moves[k])
      {
        PrefixRuns(s, moves, k);
        OneExactly(Prefix(s, moves, k), moves[k]);
      }
    }
    if EachAlone(s, moves) {
      forall k: nat | k <= |moves|
        ensures AtMostOne(Prefix(s, moves, k))
      {
        AlonePrefix(s, moves, k);
      }
    }
  }

  // ---- how the two systems relate -----------------------------------------

  /** The moves of one `acquire` that nothing interrupts. */
  function Attempt(s: Split, p: Pid, release: string, at: string, alive: Option<bool>): seq<Move> {
    if s.file.None? then [Create(p), Write(p, release, at, true)]
    else
      match AfterRead(p, Named(Text(s)))
      case Asking(q) =>
        if alive == Some(false) then [Refused(p), Read(p), Answer(p, alive), Overwrite(p, release, at)]
        else [Refused(p), Read(p), Answer(p, alive)]
      case _ => [Refused(p), Read(p), Overwrite(p, release, at)]
  }

  /** The moves, run without interruption, do what the single step does. */
  lemma UninterruptedIsOneStep(s: Split, p: Pid, release: string, at: string, ps: Ps)
    requires At(s, p, Idle) && Truthful(ps, s.procs.Keys)
    ensures var owner := Named(Text(s));
      var moves := Attempt(s, p, release, at, if owner.Some? then ps(owner.value) else None);
      Runs(s, moves) &&
      var e := End(s, moves);
      if Refusal(Text(s), p, ps).Some? then Text(e) == Text(s) && e.procs == s.procs
      else Text(e) == Some(Payload(p, release, at, owner)) && e.procs == s.procs[p := Holding]
  {
    var owner := Named(Text(s));
    var alive := if owner.Some? then ps(owner.value) else None;
    hide Owner, Can, Moved, Payload, Runs, End;
    assert s.procs[p := Idle] == s.procs;
    if s.file.None? {
      FreshMoves(s, p, release, at);
      TwoMoves(s, Create(p), Write(p, release, at, true));
    } else {
      ReadMoves(s, p);
      var s2 := Moved(Moved(s, Refused(p)), Read(p));
      if owner.Some? && owner.value != p {
        AnswerMove(s2, p, alive);
        if alive == Some(false) {
          OverwriteMove(Moved(s2, Answer(p, alive)), p, release, at);
          FourMoves(s, Refused(p), Read(p), Answer(p, alive), Overwrite(p, release, at));
        } else {
          ThreeMoves(s, Refused(p), Read(p), Answer(p, alive));
        }
      } else {
        OverwriteMove(s2, p, release, at);
        ThreeMoves(s, Refused(p), Read(p), Overwrite(p, release, at));
      }
    }
  }

  lemma {:induction false} HandlesEnd(s: Split, moves: seq<Move>)
    requires Runs(s, moves) && Handles(s)
    ensures Handles(End(s, moves))
    decreases |moves|
  {
    if moves != [] {
      HandlesKept(s, moves[0]);
      hide Handles, Moved;
      HandlesEnd(Moved(s, moves[0]), moves[1..]);
    }
  }

  /** What a process does without interruption: a whole attempt, starting, dropping the lock, or dying. */
  datatype Deed =
    | Attempts(p: Pid, release: string, at: string, ps: Ps)
    | Begins(p: Pid)
    | Drops(p: Pid)
    | Crashes(p: Pid)

  ghost predicate Doable(s: Split, d: Deed) {
    match d
    case Attempts(p, _, _, ps) => At(s, p, Idle) && Truthful(ps, s.procs.Keys)
    case Begins(p) => Can(s, Start(p))
    case Drops(p) => Can(s, Remove(p))
    case Crashes(p) => Can(s, Die(p))
  }

  ghost function Moves(s: Split, d: Deed): seq<Move> {
    match d
    case Attempts(p, release, at, ps) =>
      var owner := Named(Text(s));
      Attempt(s, p, release, at, if owner.Some? then ps(owner.value) else None)
    case Begins(p) => [Start(p)]
    case Drops(p) => [Remove(p)]
    case Crashes(p) => [Die(p)]
  }

  /** A deed leaves every holder named by the file. */
  lemma {:induction false} DeedKeepsSole(s: Split, d: Deed)
    requires Sole(s) && Doable(s, d)
    ensures Runs(s, Moves(s, d)) && Sole(End(s, Moves(s, d)))
  {
    if d.Attempts? {
      var owner := Named(Text(s));
      PayloadNamesWriter(d.p, d.release, d.at, owner);
      UninterruptedIsOneStep(s, d.p, d.release, d.at, d.ps);
      HandlesEnd(s, Moves(s, d));
      hide Owner, Payload, Runs, End, Moved, Can, Attempt, Handles;
      var e := End(s, Moves(s, d));
      forall q | At(e, q, Holding)
        ensures Names(Text(e), q)
      {
        assert q != d.p ==> At(s, q, Holding);
      }
    } else {
      var m := Moves(s, d)[0];
      OneMove(s, m);
      SoleExactly(s, m);
      hide Owner, Moved, Can, Runs, End;
    }
  }

  ghost predicate AllDoable(s: Split, deeds: seq<Deed>)
    decreases |deeds|
  {
    deeds == [] ||
    (Doable(s, deeds[0]) && Runs(s, Moves(s, deeds[0])) && AllDoable(End(s, Moves(s, deeds[0])), deeds[1..]))
  }

  ghost function AllDone(s: Split, deeds: seq<Deed>): Split
    requires AllDoable(s, deeds)
    decreases |deeds|
  {
    if deeds == [] then s else AllDone(End(s, Moves(s, deeds[0])), deeds[1..])
  }

  /** In a run in which no attempt is interrupted, at most one live process holds the lock and the file names it. */
  lemma {:induction false} WholeAttemptsExclude(s: Split, deeds: seq<Deed>)
    requires Sole(s) && AllDoable(s, deeds)
    ensures Sole(AllDone(s, deeds)) && AtMostOne(AllDone(s, deeds))
    decreases |deeds|
  {
    hide Sole, AtMostOne, Moves;
    if deeds == [] {
      SoleIsOne(s);
    } else {
      DeedKeepsSole(s, deeds[0]);
      WholeAttemptsExclude(End(s, Moves(s, deeds[0])), deeds[1..]);
    }
  }

  lemma FreshMoves(s: Split, p: Pid, release: string, at: string)
    requires At(s, p, Idle) && s.file.None?
    ensures var (m, n) := (Create(p), Write(p, release, at, true));
      Can(s, m) && Can(Moved(s, m), n) &&
      var e := Moved(Moved(s, m), n);
      Text(e) == Some(Payload(p, release, at, None)) && e.procs == s.procs[p := Holding]
  {
    hide Owner, Payload, PayloadDoc, Printable;
    assert s.procs[p := Created(s.next)][p := Holding] == s.procs[p := Holding];
  }

  lemma ReadMoves(s: Split, p: Pid)
    requires At(s, p, Idle) && s.file.Some?
    ensures var (m, n) := (Refused(p), Read(p));
      Can(s, m) && Can(Moved(s, m), n) &&
      Moved(Moved(s, m), n) == Enter(s, p, AfterRead(p, Named(Text(s))))
  {
    hide Owner;
    assert s.procs[p := Exists][p := AfterRead(p, Named(Text(s)))] == s.procs[p := AfterRead(p, Named(Text(s)))];
  }

  /**
   A file that cannot be read names nobody: its lock is taken over, or, when
   overwriting fails as well, everything stays as it was.
   */
  lemma {:induction false} UnreadableIsTakenOver(s: Split, p: Pid, release: string, at: string)
    requires At(s, p, Idle) && s.file.Some?
    ensures var moves := [Refused(p), Unread(p), Overwrite(p, release, at)];
      Runs(s, moves) &&
      var e := End(s, moves);
      Text(e) == Some(Payload(p, release, at, None)) && e.procs == s.procs[p := Holding]
    ensures var moves := [Refused(p), Unread(p), GiveUp(p)];
      Runs(s, moves) && End(s, moves) == s
  {
    hide Payload, PayloadDoc, Owner;
    var t := Enter(s, p, Reclaiming(None));
    assert s.procs[p := Exists][p := Reclaiming(None)] == t.procs;
    assert Moved(Moved(s, Refused(p)), Unread(p)) == t;
    OverwriteMove(t, p, release, at);
    assert t.procs[p := Holding] == s.procs[p := Holding] && t.procs[p := Idle] == s.procs;
    ThreeMoves(s, Refused(p), Unread(p), Overwrite(p, release, at));
    ThreeMoves(s, Refused(p), Unread(p), GiveUp(p));
  }

  lemma AnswerMove(s: Split, p: Pid, alive: Option<bool>)
    requires p in s.procs && s.procs[p].Asking? && (alive.Some? ==> alive.value == (s.procs[p].owner in s.procs))
    ensures Can(s, Answer(p, alive))
    ensures Moved(s, Answer(p, alive)) ==
      Enter(s, p, if alive == Some(false) then Reclaiming(Some(s.procs[p].owner)) else Idle)
  {
  }

  lemma OverwriteMove(s: Split, p: Pid, release: string, at: string)
    requires p in s.procs && s.procs[p].Reclaiming?
    ensures Can(s, Overwrite(p, release, at))
    ensures var e := Moved(s, Overwrite(p, release, at));
      e.procs == s.procs[p := Holding] && e.file.Some? && e.file.value.inode == s.next &&
      Text(e) == Some(Payload(p, release, at, s.procs[p].from))
  {
    hide Owner, Payload, PayloadDoc, Printable;
  }

  lemma OneMove(s: Split, m: Move)
    requires Can(s, m)
    ensures Runs(s, [m]) && End(s, [m]) == Moved(s, m)
  {
    hide Moved, Can;
    assert [m][1..] == [];
    assert Runs(Moved(s, m), []);
  }

  lemma FirstMove(s: Split, m: Move, moves: seq<Move>)
    requires Can(s, m) && Runs(Moved(s, m), moves)
    ensures Runs(s, [m] + moves) && End(s, [m] + moves) == End(Moved(s, m), moves)
  {
    hide Moved, Can;
    assert ([m] + moves)[1..] == moves;
  }

  lemma TwoMoves(s: Split, m: Move, n: Move)
    requires Can(s, m) && Can(Moved(s, m), n)
    ensures Runs(s, [m, n]) && End(s, [m, n]) == Moved(Moved(s, m), n)
  {
    hide Moved, Can, Runs, End;
    OneMove(Moved(s, m), n);
    FirstMove(s, m, [n]);
    assert [m] + [n] == [m, n];
  }

  lemma ThreeMoves(s: Split, m: Move, n: Move, o: Move)
    requires Can(s, m) && Can(Moved(s, m), n) && Can(Moved(Moved(s, m), n), o)
    ensures Runs(s, [m, n, o]) && End(s, [m, n, o]) == Moved(Moved(Moved(s, m), n), o)
  {
    hide Moved, Can, Runs, End;
    TwoMoves(Moved(s, m), n, o);
    FirstMove(s, m, [n, o]);
    assert [m] + [n, o] == [m, n, o];
  }

  lemma FourMoves(s: Split, m: Move, n: Move, o: Move, k: Move)
    requires Can(s, m) && Can(Moved(s, m), n) && Can(Moved(Moved(s, m), n), o)
    requires Can(Moved(Moved(Moved(s, m), n), o), k)
    ensures Runs(s, [m, n, o, k]) && End(s, [m, n, o, k]) == Moved(Moved(Moved(Moved(s, m), n), o), k)
  {
    hide Moved, Can, Runs, End;
    ThreeMoves(Moved(s, m), n, o, k);
    FirstMove(s, m, [n, o, k]);
    assert [m] + [n, o, k] == [m, n, o, k];
  }

  /**
   With separate steps two live processes can both hold the lock: the second
   reads the file before the first has written it. Only one of them passes the
   check, and when the other drops the lock it removes a file it does not own.
   */
  lemma SplitStepsLetTwoHold(p: Pid, q: Pid)
    requires p != q
    ensures var s := Split(None, 0, map[p := Idle, q := Idle]);
      var race := [Create(p), Refused(q), Read(q), Overwrite(q, "r", "t"), Write(p, "r", "t", true)];
      Runs(s, race) &&
      var e := End(s, race);
      At(e, p, Holding) && At(e, q, Holding) && Names(Text(e), q) && !Names(Text(e), p) &&
      Can(e, Remove(p)) && !Names(Text(Moved(e, Remove(p))), q)
  {
    var s := Split(None, 0, map[p := Idle, q := Idle]);
    hide Owner, Payload, Runs, End;
    var s1 := Split(Some(File(0, "")), 1, map[p := Created(0), q := Idle]);
    assert Can(s, Create(p)) && Moved(s, Create(p)) == s1;
    hide Moved, Can;
    ReclaimsUnwritten(s1, p, q);
    var rest := [Refused(q), Read(q), Overwrite(q, "r", "t"), Write(p, "r", "t", true)];
    FirstMove(s, Create(p), rest);
    assert [Create(p)] + rest ==
      [Create(p), Refused(q), Read(q), Overwrite(q, "r", "t"), Write(p, "r", "t", true)];
    DropMove(End(s1, rest), p);
  }

  /** The file of `p` is not written yet; `q` takes it for a dead owner's. */
  lemma {:induction false} ReclaimsUnwritten(s: Split, p: Pid, q: Pid)
    requires p != q && At(s, p, Created(0)) && At(s, q, Idle) && s.file == Some(File(0, "")) && s.next > 0
    ensures var moves := [Refused(q), Read(q), Overwrite(q, "r", "t"), Write(p, "r", "t", true)];
      Runs(s, moves) &&
      var e := End(s, moves);
      At(e, p, Holding) && At(e, q, Holding) && Named(Text(e)) == Some(q)
  {
    EmptyNamesNobody();
    PayloadNamesWriter(q, "r", "t", None);
    hide Owner, Payload, Runs, End, Moved, Can;
    ReadMoves(s, q);
    var t := Enter(s, q, Reclaiming(None));
    OverwriteMove(t, q, "r", "t");
    LateWrite(Moved(t, Overwrite(q, "r", "t")), p, "r", "t");
    FourMoves(s, Refused(q), Read(q), Overwrite(q, "r", "t"), Write(p, "r", "t", true));
  }

  /** A write through a handle whose file was renamed over reaches nothing. */
  lemma LateWrite(s: Split, p: Pid, release: string, at: string)
    requires p in s.procs && s.procs[p].Created? && s.file.Some? && s.file.value.inode != s.procs[p].inode
    ensures Can(s, Write(p, release, at, true))
    ensures Moved(s, Write(p, release, at, true)) == Enter(s, p, Holding)
  {
    hide Owner, Payload, PayloadDoc, Printable;
  }

  /** Dropping removes the file, whoever it names. */
  lemma DropMove(s: Split, p: Pid)
    requires At(s, p, Holding)
    ensures Can(s, Remove(p)) && Text(Moved(s, Remove(p))) == None
  {
  }

  lemma {:induction false} Then(s: Split, a: seq<Move>, b: seq<Move>)
    requires Runs(s, a) && Runs(End(s, a), b)
    ensures Runs(s, a + b) && End(s, a + b) == End(End(s, a), b)
    decreases |a|
  {
    if a == [] {
      assert a + b == b;
    } else {
      assert (a + b)[1..] == a[1..] + b;
      Then(Moved(s, a[0]), a[1..], b);
    }
  }

  /** Finding the file of a dead process and learning that it is dead. */
  lemma {:induction false} FindsDead(s: Split, p: Pid, dead: Pid)
    requires At(s, p, Idle) && Named(Text(s)) == Some(dead) && dead != p && dead !in s.procs
    ensures var moves := [Refused(p), Read(p), Answer(p, Some(false))];
      Runs(s, moves) && End(s, moves) == Enter(s, p, Reclaiming(Some(dead)))
  {
    hide Owner, Runs, End, Can, Moved;
    ReadMoves(s, p);
    var t := Enter(s, p, Asking(dead));
    AnswerMove(t, p, Some(false));
    ThreeMoves(s, Refused(p), Read(p), Answer(p, Some(false)));
    assert t.procs[p := Reclaiming(Some(dead))] == s.procs[p := Reclaiming(Some(dead))];
  }

  lemma {:induction false} TwoOverwrites(s: Split, p: Pid, q: Pid)
    requires p != q && p in s.procs && s.procs[p].Reclaiming? && q in s.procs && s.procs[q].Reclaiming?
    ensures var both := [Overwrite(p, "r", "t"), Overwrite(q, "r", "t")];
      Runs(s, both) &&
      var e := End(s, both);
      At(e, p, Holding) && At(e, q, Holding) && Named(Text(e)) == Some(q)
  {
    PayloadNamesWriter(q, "r", "t", s.procs[q].from);
    hide Owner, Payload, Runs, End, Can, Moved;
    OverwriteMove(s, p, "r", "t");
    var t := Moved(s, Overwrite(p, "r", "t"));
    OverwriteMove(t, q, "r", "t");
    TwoMoves(s, Overwrite(p, "r", "t"), Overwrite(q, "r", "t"));
  }

  /**
   The second race: two processes read the same dead owner, and both overwrite
   the file. No first write is involved; the last overwrite breaks its guard.
   */
  lemma {:induction false} TwoReclaimersBothHold(p: Pid, q: Pid, dead: Pid)
    requires p != q && dead != p && dead != q
    ensures var s := Split(Some(File(0, Payload(dead, "r", "t", None))), 1, map[p := Idle, q := Idle]);
      var race := [Refused(p), Read(p), Answer(p, Some(false))] + [Refused(q), Read(q), Answer(q, Some(false))];
      var both := [Overwrite(p, "r", "t"), Overwrite(q, "r", "t")];
      Sole(s) && Runs(s, race + both) &&
      var e := End(s, race + both);
      At(e, p, Holding) && At(e, q, Holding) && Named(Text(e)) == Some(q)
  {
    var s := Split(Some(File(0, Payload(dead, "r", "t", None))), 1, map[p := Idle, q := Idle]);
    PayloadNamesWriter(dead, "r", "t", None);
    IdleIsSole(s);
    hide Owner, Payload, Runs, End, Can, Moved, Sole;
    FindsDead(s, p, dead);
    var s1 := Enter(s, p, Reclaiming(Some(dead)));
    FindsDead(s1, q, dead);
    var ps, qs := [Refused(p), Read(p), Answer(p, Some(false))], [Refused(q), Read(q), Answer(q, Some(false))];
    Then(s, ps, qs);
    TwoOverwrites(Enter(s1, q, Reclaiming(Some(dead))), p, q);
    Then(s, ps + qs, [Overwrite(p, "r", "t"), Overwrite(q, "r", "t")]);
  }
}
