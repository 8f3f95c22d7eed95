/** The filesystem driver's store protocol (FileSystemAssetStorage._store_sync) under concurrent
    writers: sibling checks, a temporary file written piece by piece, an atomic hard link, and a
    comparison when the link finds the name taken. Every step of a call is one atomic action, and
    any call may fail or be killed between two steps. */
module ConcurrentStore {
  import opened Text

  /** Hard links make two names share one file, so the model keeps files apart from names. */
  datatype FileSystem = FileSystem(
    links: map<string, nat>,   // storage paths
    temporaries: set<nat>,     // files that still have their temporary name
    files: seq<Bytes>)         // contents by file number

  datatype Outcome = Success | DifferentMetadata | DifferentBytes | InvalidInput | IoError

  datatype Pc =
    | Start
    | CheckSibling(i: nat)
    | MakeParent
    | CheckDestination
    | ReadExisting
    | CreateTemporary
    | Writing(file: nat, written: nat)
    | Linking(file: nat)
    | ReadConflict(file: nat)
    | Unlinking(file: nat, outcome: Outcome)
    | Finished(outcome: Outcome)
    | Killed

  /** One call: where it stores, the other paths its asset could have, and the bytes. */
  datatype Call = Call(destination: string, siblings: seq<string>, data: Bytes)

  datatype Thread = Thread(call: Call, pc: Pc)

  datatype State = State(fs: FileSystem, threads: seq<Thread>)

  /** Advance thread t; write up to a position; let its current system call fail; kill it. */
  datatype Action = Go(t: nat) | Write(t: nat, upTo: nat) | Fault(t: nat) | Kill(t: nat)

  function At(s: State, t: nat, pc: Pc): State
    requires t < |s.threads|
  {
    s.(threads := s.threads[t := s.threads[t].(pc := pc)])
  }

  predicate Linked(fs: FileSystem, path: string) {
    path in fs.links && fs.links[path] < |fs.files|
  }

  function Content(fs: FileSystem, path: string): Bytes
    requires Linked(fs, path)
  {
    fs.files[fs.links[path]]
  }

  /** Whether the stored bytes are the caller's. */
  function Compare(fs: FileSystem, call: Call): Outcome {
    if Linked(fs, call.destination) && Content(fs, call.destination) == call.data then Success else DifferentBytes
  }

  /** The next point of a call whose current step only looks at the store. */
  function LookAhead(fs: FileSystem, call: Call, pc: Pc): Pc {
    match pc
    case Start => if call.data == [] then Finished(InvalidInput) else CheckSibling(0)
    case CheckSibling(i) =>
      if i >= |call.siblings| then MakeParent
      else if call.siblings[i] in fs.links then Finished(DifferentMetadata)
      else CheckSibling(i + 1)
    case MakeParent => CheckDestination
    case CheckDestination => if call.destination in fs.links then ReadExisting else CreateTemporary
    case ReadExisting => Finished(Compare(fs, call))
    case Writing(file, written) => if written == |call.data| then Linking(file) else pc
    case ReadConflict(file) => Unlinking(file, Compare(fs, call))
    case _ => pc
  }

  function Advance(s: State, t: nat): State
    requires t < |s.threads|
  {
    var call, fs := s.threads[t].call, s.fs;
    match s.threads[t].pc
    case CreateTemporary =>
      At(s.(fs := fs.(temporaries := fs.temporaries + {|fs.files|}, files := fs.files + [[]])), t,
        Writing(|fs.files|, 0))
    case Linking(file) =>
      if call.destination in fs.links then At(s, t, ReadConflict(file))
      else At(s.(fs := fs.(links := fs.links[call.destination := file])), t, Unlinking(file, Success))
    case Unlinking(file, outcome) =>
      At(s.(fs := fs.(temporaries := fs.temporaries - {file})), t, Finished(outcome))
    case pc => At(s, t, LookAhead(fs, call, pc))
  }

  function Apply(s: State, a: Action): State {
    if a.t >= |s.threads| then s
    else
      var pc, call := s.threads[a.t].pc, s.threads[a.t].call;
      match a
      case Go(t) => Advance(s, t)
      case Write(t, upTo) =>
        if pc.Writing? && pc.written < upTo <= |call.data| && pc.file < |s.fs.files| then
          At(s.(fs := s.fs.(files := s.fs.files[pc.file := call.data[..upTo]])), t, Writing(pc.file, upTo))
        else s
      case Fault(t) =>
        (match pc
         case Writing(file, _) => At(s, t, Unlinking(file, IoError))
         case Linking(file) => At(s, t, Unlinking(file, IoError))
         case ReadConflict(file) => At(s, t, Unlinking(file, IoError))
         case ReadExisting => At(s, t, Finished(IoError))
         case CreateTemporary => At(s, t, Finished(IoError))
         case CheckSibling(_) => At(s, t, Finished(IoError))
         case MakeParent => At(s, t, Finished(IoError))
         case CheckDestination => At(s, t, Finished(IoError))
         case Unlinking(_, _) => At(s, t, Finished(IoError))
         case _ => s)
      case Kill(t) => if pc.Finished? then s else At(s, t, Killed)
  }

  function Run(s: State, actions: seq<Action>): State {
    if actions == [] then s
    else Apply(Run(s, actions[..|actions| - 1]), actions[|actions| - 1])
  }

  lemma {:induction false} RunAppend(s: State, a: seq<Action>, b: seq<Action>)
    ensures Run(s, a + b) == Run(Run(s, a), b)
  {
    if b == [] {
      assert a + b == a;
    } else {
      RunAppend(s, a, b[..|b| - 1]);
      assert (a + b)[..|a + b| - 1] == a + b[..|b| - 1];
    }
  }

  // ----- The invariant -----

  /** The file a thread still writes or is about to link. */
  function OwnedFile(pc: Pc): int {
    match pc
    case Writing(file, _) => file
    case Linking(file) => file
    case _ => -1
  }

  ghost predicate FileSystemOk(fs: FileSystem) {
    && (forall p :: p in fs.links ==> fs.links[p] < |fs.files|)
    && (forall p, q :: p in fs.links && q in fs.links && p != q ==> fs.links[p] != fs.links[q])
  }

  ghost predicate ThreadOk(fs: FileSystem, th: Thread) {
    && (!th.pc.Start? && th.pc != Finished(InvalidInput) && !th.pc.Killed? ==> th.call.data != [])
    && match th.pc
       case Writing(file, written) =>
         file < |fs.files| && written <= |th.call.data| && fs.files[file] == th.call.data[..written]
         && forall p :: p in fs.links ==> fs.links[p] != file
       case Linking(file) =>
         file < |fs.files| && fs.files[file] == th.call.data
         && forall p :: p in fs.links ==> fs.links[p] != file
       case ReadConflict(_) => th.call.destination in fs.links
       case ReadExisting => th.call.destination in fs.links
       case Unlinking(_, outcome) => OutcomeTrue(fs, th.call, outcome)
       case Finished(outcome) => OutcomeTrue(fs, th.call, outcome)
       case _ => true
  }

  /** What a call reports is so in the store. */
  ghost predicate OutcomeTrue(fs: FileSystem, call: Call, outcome: Outcome) {
    match outcome
    case Success => Linked(fs, call.destination) && Content(fs, call.destination) == call.data
    case DifferentBytes => Linked(fs, call.destination) && Content(fs, call.destination) != call.data
    case DifferentMetadata => exists i :: 0 <= i < |call.siblings| && call.siblings[i] in fs.links
    case InvalidInput => call.data == []
    case IoError => true
  }

  ghost predicate SuppliedBy(threads: seq<Thread>, path: string, bytes: Bytes) {
    exists t :: 0 <= t < |threads| && threads[t].call.destination == path && threads[t].call.data == bytes
  }

  /** Every visible object is complete: it was there before the run, or it is all the bytes of one
      call for its path. */
  ghost predicate ObjectsComplete(initial: map<string, Bytes>, s: State) {
    forall p :: p in s.fs.links ==>
      Linked(s.fs, p) &&
      ((p in initial && Content(s.fs, p) == initial[p])
       || (Content(s.fs, p) != [] && SuppliedBy(s.threads, p, Content(s.fs, p))))
  }

  ghost predicate Inv(initial: map<string, Bytes>, s: State) {
    && FileSystemOk(s.fs)
    && (forall t :: 0 <= t < |s.threads| ==> ThreadOk(s.fs, s.threads[t]))
    && (forall t, u :: 0 <= t < u < |s.threads| && OwnedFile(s.threads[t].pc) >= 0 ==>
          OwnedFile(s.threads[t].pc) != OwnedFile(s.threads[u].pc))
    && ObjectsComplete(initial, s)
  }

  /** Before any call has started, over whatever objects earlier runs left. */
  ghost predicate Initial(initial: map<string, Bytes>, s: State) {
    && FileSystemOk(s.fs)
    && s.fs.links.Keys == initial.Keys
    && (forall p :: p in initial ==> Linked(s.fs, p) && Content(s.fs, p) == initial[p])
    && forall t :: 0 <= t < |s.threads| ==> s.threads[t].pc.Start?
  }

  /** A name once linked keeps its bytes. */
  ghost predicate Extends(a: FileSystem, b: FileSystem) {
    forall p :: Linked(a, p) ==> Linked(b, p) && Content(b, p) == Content(a, p)
  }

  ghost predicate SameCalls(a: State, b: State) {
    |a.threads| == |b.threads| && forall t :: 0 <= t < |a.threads| ==> a.threads[t].call == b.threads[t].call
  }

  lemma {:induction false} InitialInv(initial: map<string, Bytes>, s: State)
    requires Initial(initial, s)
    ensures Inv(initial, s)
  {
  }

  /** What one action may do to the file system without harm to the others. */
  ghost predicate Harmless(a: FileSystem, b: FileSystem, owned: int) {
    && FileSystemOk(b)
    && |a.files| <= |b.files|
    && (forall f :: 0 <= f < |a.files| && f != owned ==> b.files[f] == a.files[f])
    && (forall p :: p in a.links ==> p in b.links && b.links[p] == a.links[p] && a.links[p] != owned)
    && (forall p :: p in b.links && p !in a.links ==> b.links[p] == owned)
  }

  lemma {:induction false} OthersKeep(a: FileSystem, b: FileSystem, owned: int, th: Thread)
    requires FileSystemOk(a) && Harmless(a, b, owned)
    requires ThreadOk(a, th) && (OwnedFile(th.pc) >= 0 ==> OwnedFile(th.pc) != owned)
    ensures ThreadOk(b, th)
  {
    if th.pc.Unlinking? || th.pc.Finished? {
      var outcome := th.pc.outcome;
      if outcome.DifferentMetadata? {
        var i :| 0 <= i < |th.call.siblings| && th.call.siblings[i] in a.links;
        assert th.call.siblings[i] in b.links;
      }
    }
  }

  lemma {:induction false} HarmlessExtends(a: FileSystem, b: FileSystem, owned: int)
    requires FileSystemOk(a) && Harmless(a, b, owned)
    ensures Extends(a, b)
  {
  }

  /** One thread moves and changes the file system harmlessly: the invariant holds on. */
  lemma {:induction false} ThreadMoves(
    initial: map<string, Bytes>, s: State, t: nat, fs: FileSystem, pc: Pc, owned: int)
    requires Inv(initial, s) && t < |s.threads|
    requires Harmless(s.fs, fs, owned)
    requires owned == OwnedFile(s.threads[t].pc) || owned == -1
    requires ThreadOk(fs, s.threads[t].(pc := pc))
    requires OwnedFile(pc) in {-1, OwnedFile(s.threads[t].pc), |s.fs.files|}
    requires forall p :: p in fs.links && p !in s.fs.links ==>
               p == s.threads[t].call.destination && Linked(fs, p) && Content(fs, p) == s.threads[t].call.data != []
    ensures Inv(initial, At(s.(fs := fs), t, pc))
    ensures Extends(s.fs, fs) && SameCalls(s, At(s.(fs := fs), t, pc))
  {
    hide FileSystemOk, ObjectsComplete, Extends, Content, Linked;
    var s' := At(s.(fs := fs), t, pc);
    assert Extends(s.fs, fs) && SameCalls(s, s') by { HarmlessExtends(s.fs, fs, owned); }
    forall u | 0 <= u < |s'.threads| ensures ThreadOk(fs, s'.threads[u]) {
      if u != t {
        assert OwnedFile(s.threads[u].pc) >= 0 ==> OwnedFile(s.threads[u].pc) != OwnedFile(s.threads[t].pc);
        OthersKeep(s.fs, fs, owned, s.threads[u]);
      }
    }
    forall u, v | 0 <= u < v < |s'.threads| && OwnedFile(s'.threads[u].pc) >= 0
      ensures OwnedFile(s'.threads[u].pc) != OwnedFile(s'.threads[v].pc)
    {
      assert ThreadOk(s.fs, s.threads[u]) && ThreadOk(s.fs, s.threads[v]);
      assert OwnedFile(s.threads[u].pc) < |s.fs.files| && OwnedFile(s.threads[v].pc) < |s.fs.files|;
    }
    ObjectsStayComplete(initial, s, t, s');
  }

  lemma {:induction false} ObjectsStayComplete(initial: map<string, Bytes>, s: State, t: nat, s': State)
    requires ObjectsComplete(initial, s) && FileSystemOk(s'.fs) && SameCalls(s, s') && t < |s.threads|
    requires Extends(s.fs, s'.fs)
    requires forall p :: p in s'.fs.links && p !in s.fs.links ==>
               p == s.threads[t].call.destination && Linked(s'.fs, p)
                 && Content(s'.fs, p) == s.threads[t].call.data != []
    ensures ObjectsComplete(initial, s')
  {
    forall p | p in s'.fs.links
      ensures Linked(s'.fs, p)
      ensures (p in initial && Content(s'.fs, p) == initial[p])
              || (Content(s'.fs, p) != [] && SuppliedBy(s'.threads, p, Content(s'.fs, p)))
    {
      if p !in s.fs.links {
        assert s'.threads[t].call == s.threads[t].call;
      } else if !(p in initial && Content(s.fs, p) == initial[p]) {
        var u :| 0 <= u < |s.threads| && s.threads[u].call.destination == p
          && s.threads[u].call.data == Content(s.fs, p);
        assert s'.threads[u].call == s.threads[u].call;
      }
    }
  }

  lemma {:induction false} WriteKeepsInv(initial: map<string, Bytes>, s: State, t: nat, upTo: nat)
    requires Inv(initial, s)
    ensures var s' := Apply(s, Write(t, upTo)); Inv(initial, s') && Extends(s.fs, s'.fs) && SameCalls(s, s')
  {
    if t < |s.threads| {
      var pc, call := s.threads[t].pc, s.threads[t].call;
      assert ThreadOk(s.fs, s.threads[t]);
      if pc.Writing? && pc.written < upTo <= |call.data| && pc.file < |s.fs.files| {
        var fs := s.fs.(files := s.fs.files[pc.file := call.data[..upTo]]);
        ThreadMoves(initial, s, t, fs, Writing(pc.file, upTo), pc.file);
      }
    }
  }

  lemma {:induction false} FailKeepsInv(initial: map<string, Bytes>, s: State, a: Action)
    requires Inv(initial, s) && (a.Fault? || a.Kill?)
    ensures var s' := Apply(s, a); Inv(initial, s') && Extends(s.fs, s'.fs) && SameCalls(s, s')
  {
    if a.t < |s.threads| {
      assert ThreadOk(s.fs, s.threads[a.t]);
      var s' := Apply(s, a);
      if s' != s {
        ThreadMoves(initial, s, a.t, s.fs, s'.threads[a.t].pc, -1);
      }
    }
  }

  lemma {:induction false} LookAheadOk(fs: FileSystem, th: Thread)
    requires FileSystemOk(fs) && ThreadOk(fs, th)
    requires !th.pc.CreateTemporary? && !th.pc.Linking? && !th.pc.Unlinking?
    ensures ThreadOk(fs, th.(pc := LookAhead(fs, th.call, th.pc)))
    ensures OwnedFile(LookAhead(fs, th.call, th.pc)) in {-1, OwnedFile(th.pc)}
  {
  }

  lemma {:induction false} InvParts(initial: map<string, Bytes>, s: State, t: nat)
    requires Inv(initial, s) && t < |s.threads|
    ensures ThreadOk(s.fs, s.threads[t]) && FileSystemOk(s.fs)
  {
  }

  lemma {:induction false} HarmlessSelf(fs: FileSystem)
    requires FileSystemOk(fs)
    ensures Harmless(fs, fs, -1)
  {
  }

  lemma {:induction false} LinkIsHarmless(fs: FileSystem, call: Call, file: nat)
    requires FileSystemOk(fs) && ThreadOk(fs, Thread(call, Linking(file)))
    requires call.destination !in fs.links
    ensures var linked := fs.(links := fs.links[call.destination := file]);
            && Harmless(fs, linked, file)
            && ThreadOk(linked, Thread(call, Unlinking(file, Success)))
            && Linked(linked, call.destination) && Content(linked, call.destination) == call.data != []
  {
  }

  lemma {:induction false} LinkKeepsInv(initial: map<string, Bytes>, s: State, t: nat, file: nat)
    requires Inv(initial, s) && t < |s.threads| && s.threads[t].pc == Linking(file)
    ensures var s' := Advance(s, t); Inv(initial, s') && Extends(s.fs, s'.fs) && SameCalls(s, s')
  {
    hide Inv, FileSystemOk, ObjectsComplete, Extends;
    var call, fs := s.threads[t].call, s.fs;
    assert ThreadOk(fs, s.threads[t]) && FileSystemOk(fs) by { InvParts(initial, s, t); }
    if call.destination in fs.links {
      HarmlessSelf(fs);
      ThreadMoves(initial, s, t, fs, ReadConflict(file), -1);
    } else {
      var linked := fs.(links := fs.links[call.destination := file]);
      LinkIsHarmless(fs, call, file);
      ThreadMoves(initial, s, t, linked, Unlinking(file, Success), file);
    }
  }

  lemma {:induction false} CreateKeepsInv(initial: map<string, Bytes>, s: State, t: nat)
    requires Inv(initial, s) && t < |s.threads| && s.threads[t].pc.CreateTemporary?
    ensures var s' := Advance(s, t); Inv(initial, s') && Extends(s.fs, s'.fs) && SameCalls(s, s')
  {
    var fs := s.fs.(temporaries := s.fs.temporaries + {|s.fs.files|}, files := s.fs.files + [[]]);
    assert ThreadOk(s.fs, s.threads[t]);
    assert Harmless(s.fs, fs, -1);
    assert s.threads[t].call.data[..0] == [];
    hide ObjectsComplete;
    ThreadMoves(initial, s, t, fs, Writing(|s.fs.files|, 0), -1);
  }

  lemma {:induction false} QuietKeepsInv(initial: map<string, Bytes>, s: State, t: nat, fs: FileSystem, pc: Pc)
    requires Inv(initial, s) && t < |s.threads| && fs.links == s.fs.links && fs.files == s.fs.files
    requires ThreadOk(s.fs, s.threads[t].(pc := pc)) && OwnedFile(pc) in {-1, OwnedFile(s.threads[t].pc)}
    ensures var s' := At(s.(fs := fs), t, pc); Inv(initial, s') && Extends(s.fs, s'.fs) && SameCalls(s, s')
  {
    assert ThreadOk(s.fs, s.threads[t]) && Harmless(s.fs, fs, -1);
    hide ObjectsComplete;
    ThreadMoves(initial, s, t, fs, pc, -1);
  }

  lemma {:induction false} GoKeepsInv(initial: map<string, Bytes>, s: State, t: nat)
    requires Inv(initial, s) && t < |s.threads|
    ensures var s' := Advance(s, t); Inv(initial, s') && Extends(s.fs, s'.fs) && SameCalls(s, s')
  {
    var th := s.threads[t];
    assert ThreadOk(s.fs, th) && FileSystemOk(s.fs);
    hide LookAhead, ThreadOk, Inv, Extends, SameCalls;
    match th.pc
    case CreateTemporary => CreateKeepsInv(initial, s, t);
    case Linking(file) => LinkKeepsInv(initial, s, t, file);
    case Unlinking(file, outcome) =>
      assert ThreadOk(s.fs, th.(pc := Finished(outcome))) by { UnlinkOk(s.fs, th); }
      QuietKeepsInv(initial, s, t, s.fs.(temporaries := s.fs.temporaries - {file}), Finished(outcome));
    case pc =>
      LookAheadOk(s.fs, th);
      QuietKeepsInv(initial, s, t, s.fs, LookAhead(s.fs, th.call, pc));
  }

  lemma {:induction false} UnlinkOk(fs: FileSystem, th: Thread)
    requires ThreadOk(fs, th) && th.pc.Unlinking?
    ensures ThreadOk(fs, th.(pc := Finished(th.pc.outcome)))
  {
  }

  lemma {:induction false} ApplyKeepsInv(initial: map<string, Bytes>, s: State, a: Action)
    requires Inv(initial, s)
    ensures Inv(initial, Apply(s, a))
    ensures Extends(s.fs, Apply(s, a).fs)
    ensures SameCalls(s, Apply(s, a))
  {
    hide Inv;
    match a
    case Go(t) => if t < |s.threads| { GoKeepsInv(initial, s, t); }
    case Write(t, upTo) => WriteKeepsInv(initial, s, t, upTo);
    case Fault(_) => FailKeepsInv(initial, s, a);
    case Kill(_) => FailKeepsInv(initial, s, a);
  }

  lemma {:induction false} RunKeepsInv(initial: map<string, Bytes>, s: State, actions: seq<Action>)
    requires Inv(initial, s)
    ensures Inv(initial, Run(s, actions))
    ensures Extends(s.fs, Run(s, actions).fs)
    ensures |Run(s, actions).threads| == |s.threads|
    ensures SameCalls(s, Run(s, actions))
  {
    hide Inv, Apply;
    if actions != [] {
      var n := |actions| - 1;
      RunKeepsInv(initial, s, actions[..n]);
      ApplyKeepsInv(initial, Run(s, actions[..n]), actions[n]);
    }
  }

  // ----- Safety over every run -----

  /** Write-once under any interleaving: at every point of every run each visible object is complete,
      and no later point changes or removes it. */
  lemma {:induction false} WriteOnce(initial: map<string, Bytes>, s: State, actions: seq<Action>, n: nat)
    requires Initial(initial, s) && n <= |actions|
    ensures ObjectsComplete(initial, Run(s, actions[..n]))
    ensures Extends(Run(s, actions[..n]).fs, Run(s, actions).fs)
    ensures forall p :: p in initial ==> Linked(Run(s, actions).fs, p) && Content(Run(s, actions).fs, p) == initial[p]
  {
    InitialInv(initial, s);
    RunKeepsInv(initial, s, actions[..n]);
    assert actions == actions[..n] + actions[n..];
    RunAppend(s, actions[..n], actions[n..]);
    RunKeepsInv(initial, Run(s, actions[..n]), actions[n..]);
    RunKeepsInv(initial, s, actions);
    hide Run, Apply, Inv;
  }

  ghost predicate Ended(s: State, t: nat, outcome: Outcome) {
    t < |s.threads| && s.threads[t].pc == Finished(outcome)
  }

  /** Every call that has returned reported the truth, and its truth lasts: success means the store
      holds exactly the bytes supplied, at that point and from then on. */
  lemma {:induction false} OutcomesTrue(
    initial: map<string, Bytes>, s: State, actions: seq<Action>, n: nat, t: nat, outcome: Outcome)
    requires Initial(initial, s) && n <= |actions| && t < |s.threads|
    requires Ended(Run(s, actions[..n]), t, outcome)
    ensures OutcomeTrue(Run(s, actions).fs, s.threads[t].call, outcome)
  {
    InitialInv(initial, s);
    RunKeepsInv(initial, s, actions[..n]);
    WriteOnce(initial, s, actions, n);
    hide Run, Apply;
    var mid := Run(s, actions[..n]);
    assert ThreadOk(mid.fs, mid.threads[t]);
    if outcome.DifferentMetadata? {
      var i :| 0 <= i < |s.threads[t].call.siblings| && s.threads[t].call.siblings[i] in mid.fs.links;
      assert Linked(mid.fs, s.threads[t].call.siblings[i]);
    }
  }

  /** Two calls that both succeed on one path supplied the same bytes. */
  lemma {:induction false} SuccessesAgree(initial: map<string, Bytes>, s: State, actions: seq<Action>, t: nat, u: nat)
    requires Initial(initial, s) && t < |s.threads| && u < |s.threads|
    requires s.threads[t].call.destination == s.threads[u].call.destination
    requires Ended(Run(s, actions), t, Success) && Ended(Run(s, actions), u, Success)
    ensures s.threads[t].call.data == s.threads[u].call.data
  {
    assert actions[..|actions|] == actions;
    OutcomesTrue(initial, s, actions, |actions|, t, Success);
    OutcomesTrue(initial, s, actions, |actions|, u, Success);
  }

  // ----- One extension per asset holds for calls that do not overlap -----

  /** Sibling k is linked, and the call is before or at its check, or has failed. */
  ghost predicate Late(s: State, t: nat, k: nat) {
    && t < |s.threads| && k < |s.threads[t].call.siblings|
    && s.threads[t].call.siblings[k] in s.fs.links
    && (match s.threads[t].pc
        case Start => true
        case CheckSibling(i) => i <= k
        case Finished(outcome) => outcome != Success
        case Killed => true
        case _ => false)
  }

  lemma {:induction false} LateStep(s: State, a: Action, t: nat, k: nat)
    requires Late(s, t, k)
    ensures Late(Apply(s, a), t, k)
  {
    if a.t == t {
      assert !OwnsOrLinks(s.threads[t].pc);
    } else {
      OtherThread(s, a, t);
    }
  }

  predicate OwnsOrLinks(pc: Pc) {
    pc.Writing? || pc.Linking? || pc.CreateTemporary? || pc.ReadConflict? || pc.Unlinking? || pc.ReadExisting?
  }

  lemma {:induction false} OtherThread(s: State, a: Action, t: nat)
    requires a.t != t && t < |s.threads|
    ensures |Apply(s, a).threads| == |s.threads| && Apply(s, a).threads[t] == s.threads[t]
    ensures forall p :: p in s.fs.links ==> p in Apply(s, a).fs.links
  {
  }

  lemma {:induction false} LateStaysLate(s: State, actions: seq<Action>, t: nat, k: nat)
    requires Late(s, t, k)
    ensures Late(Run(s, actions), t, k)
  {
    hide Apply, Late;
    if actions != [] {
      LateStaysLate(s, actions[..|actions| - 1], t, k);
      LateStep(Run(s, actions[..|actions| - 1]), actions[|actions| - 1], t, k);
    }
  }

  /** A call that starts when another extension of its asset is already stored never succeeds, and never gets
      as far as writing or linking anything. */
  lemma {:induction false} LateCallFails(s: State, actions: seq<Action>, n: nat, t: nat, k: nat)
    requires n <= |actions|
    requires var mid := Run(s, actions[..n]);
             && t < |mid.threads| && mid.threads[t].pc.Start?
             && k < |mid.threads[t].call.siblings| && mid.threads[t].call.siblings[k] in mid.fs.links
    ensures !Ended(Run(s, actions), t, Success)
    ensures t < |Run(s, actions).threads| && !OwnsOrLinks(Run(s, actions).threads[t].pc)
  {
    assert actions == actions[..n] + actions[n..];
    RunAppend(s, actions[..n], actions[n..]);
    LateStaysLate(Run(s, actions[..n]), actions[n..], t, k);
  }

  ghost predicate Reaches(s: State, s': State) {
    exists actions :: Run(s, actions) == s'
  }

  lemma {:induction false} ReachesStep(s: State, x: State, a: Action)
    requires Reaches(s, x)
    ensures Reaches(s, Apply(x, a))
  {
    var actions :| Run(s, actions) == x;
    assert (actions + [a])[..|actions|] == actions;
    assert Run(s, actions + [a]) == Apply(x, a);
  }

  lemma {:induction false} SoloCreates(origin: State, s: State, t: nat) returns (s': State)
    requires Reaches(origin, s) && t < |s.threads| && s.threads[t].call.destination !in s.fs.links
    requires s.threads[t].pc == CheckSibling(|s.threads[t].call.siblings|)
    ensures Reaches(origin, s')
    ensures s' == At(s.(fs := s.fs.(temporaries := s.fs.temporaries + {|s.fs.files|}, files := s.fs.files + [[]])), t,
            Writing(|s.fs.files|, 0))
  {
    hide Run, Reaches;
    ReachesStep(origin, s, Go(t));
    s' := At(s, t, MakeParent);
    ReachesStep(origin, s', Go(t));
    s' := At(s, t, CheckDestination);
    ReachesStep(origin, s', Go(t));
    s' := At(s, t, CreateTemporary);
    ReachesStep(origin, s', Go(t));
    s' := Apply(s', Go(t));
  }

  lemma {:induction false} SoloLinks(origin: State, s: State, t: nat, file: nat) returns (s': State)
    requires Reaches(origin, s) && t < |s.threads| && s.threads[t].call.destination !in s.fs.links
    requires s.threads[t].pc == Writing(file, 0) && file < |s.fs.files| && s.threads[t].call.data != []
    ensures Reaches(origin, s') && SameCalls(s, s')
    ensures Ended(s', t, Success)
    ensures forall u :: 0 <= u < |s.threads| && u != t ==> s'.threads[u] == s.threads[u]
    ensures s'.fs.links.Keys == s.fs.links.Keys + {s.threads[t].call.destination}
  {
    hide Run, Reaches;
    var call := s.threads[t].call;
    ReachesStep(origin, s, Write(t, |call.data|));
    var written := s.fs.(files := s.fs.files[file := call.data[..|call.data|]]);
    s' := At(s.(fs := written), t, Writing(file, |call.data|));
    ReachesStep(origin, s', Go(t));
    s' := At(s.(fs := written), t, Linking(file));
    ReachesStep(origin, s', Go(t));
    var linked := written.(links := written.links[call.destination := file]);
    s' := At(s.(fs := linked), t, Unlinking(file, Success));
    ReachesStep(origin, s', Go(t));
    s' := Apply(s', Go(t));
  }

  /** Left alone after its sibling checks, a call whose path is free stores its bytes. */
  lemma {:induction false} SoloSucceeds(origin: State, s: State, t: nat) returns (s': State)
    requires Reaches(origin, s) && t < |s.threads| && s.threads[t].call.data != []
    requires s.threads[t].call.destination !in s.fs.links
    requires s.threads[t].pc == CheckSibling(|s.threads[t].call.siblings|)
    ensures Reaches(origin, s') && Ended(s', t, Success) && SameCalls(s, s')
    ensures forall u :: 0 <= u < |s.threads| && u != t ==> s'.threads[u] == s.threads[u]
    ensures s'.fs.links.Keys == s.fs.links.Keys + {s.threads[t].call.destination}
  {
    hide Run, Reaches;
    s' := SoloCreates(origin, s, t);
    s' := SoloLinks(origin, s', t, |s.fs.files|);
  }

  ghost predicate NoSiblingLinked(s: State, t: nat)
    requires t < |s.threads|
  {
    forall k :: 0 <= k < |s.threads[t].call.siblings| ==> s.threads[t].call.siblings[k] !in s.fs.links
  }

  /** A call that may start here and has its path to itself. */
  ghost predicate ReadyToStart(s: State, t: nat) {
    && t < |s.threads|
    && s.threads[t].pc.Start?
    && s.threads[t].call.data != []
    && s.threads[t].call.destination !in s.fs.links
  }

  /** With no sibling stored, a call gets through its sibling checks without touching anything. */
  lemma {:induction false} SoloChecks(origin: State, s: State, t: nat, i: nat)
    requires Reaches(origin, s) && t < |s.threads| && i <= |s.threads[t].call.siblings|
    requires s.threads[t].pc == CheckSibling(i) && NoSiblingLinked(s, t)
    ensures Reaches(origin, At(s, t, CheckSibling(|s.threads[t].call.siblings|)))
    decreases |s.threads[t].call.siblings| - i
  {
    hide Run, Reaches;
    if i == |s.threads[t].call.siblings| {
      assert At(s, t, CheckSibling(i)) == s;
    } else {
      var next := At(s, t, CheckSibling(i + 1));
      ReachesStep(origin, s, Go(t));
      assert Apply(s, Go(t)) == next;
      SoloChecks(origin, next, t, i + 1);
      assert At(next, t, CheckSibling(|s.threads[t].call.siblings|)) == At(s, t,
        CheckSibling(|s.threads[t].call.siblings|));
    }
  }

  lemma {:induction false} SoloStarts(origin: State, s: State, t: nat)
    requires Reaches(origin, s) && t < |s.threads| && s.threads[t].pc.Start? && s.threads[t].call.data != []
    requires NoSiblingLinked(s, t)
    ensures Reaches(origin, At(s, t, CheckSibling(|s.threads[t].call.siblings|)))
  {
    hide Run, Reaches;
    var first := At(s, t, CheckSibling(0));
    ReachesStep(origin, s, Go(t));
    assert Apply(s, Go(t)) == first;
    SoloChecks(origin, first, t, 0);
    assert At(first, t, CheckSibling(|s.threads[t].call.siblings|)) == At(s, t,
      CheckSibling(|s.threads[t].call.siblings|));
  }

  /** From wherever a call starts on a free path, it can succeed if and only if no other extension of its
      asset is stored at that moment. */
  lemma {:induction false} CanSucceedIffNoSibling(s: State, t: nat)
    requires ReadyToStart(s, t)
    ensures (exists s' :: Reaches(s, s') && Ended(s', t, Success)) <==> NoSiblingLinked(s, t)
  {
    hide Apply;
    if NoSiblingLinked(s, t) {
      assert Run(s, []) == s;
      assert Reaches(s, s);
      SoloStarts(s, s, t);
      var s' := SoloSucceeds(s, At(s, t, CheckSibling(|s.threads[t].call.siblings|)), t);
    } else {
      var k :| 0 <= k < |s.threads[t].call.siblings| && s.threads[t].call.siblings[k] in s.fs.links;
      forall s' | Reaches(s, s') ensures !Ended(s', t, Success) {
        var actions :| Run(s, actions) == s';
        assert actions[..0] == [];
        LateCallFails(s, actions, 0, t, k);
      }
    }
  }

  // ----- Two siblings stored mean two overlapping calls -----

  predicate InProgress(pc: Pc) {
    !pc.Start? && !pc.Finished? && !pc.Killed?
  }

  /** A call for this path is under way. */
  ghost predicate Active(s: State, path: string) {
    exists t :: 0 <= t < |s.threads| && s.threads[t].call.destination == path && InProgress(s.threads[t].pc)
  }

  /** Every call for p knows q as a path its asset could have. */
  ghost predicate Watches(s: State, p: string, q: string) {
    forall t :: 0 <= t < |s.threads| && s.threads[t].call.destination == p ==> q in s.threads[t].call.siblings
  }

  lemma {:induction false} ApplyKeepsCalls(s: State, a: Action)
    ensures SameCalls(s, Apply(s, a))
  {
  }

  lemma {:induction false} RunKeepsCalls(s: State, actions: seq<Action>)
    ensures SameCalls(s, Run(s, actions))
  {
    hide Apply;
    if actions != [] {
      RunKeepsCalls(s, actions[..|actions| - 1]);
      ApplyKeepsCalls(Run(s, actions[..|actions| - 1]), actions[|actions| - 1]);
    }
  }

  /** Only a call for a path links it, at its linking step. */
  lemma {:induction false} LinkingStep(s: State, a: Action, p: string)
    requires p !in s.fs.links && p in Apply(s, a).fs.links
    ensures a.t < |s.threads| && s.threads[a.t].pc.Linking? && s.threads[a.t].call.destination == p
  {
  }

  /** The first point at which a path is linked. */
  lemma {:induction false} FirstLinked(s: State, actions: seq<Action>, p: string) returns (n: nat)
    requires p !in s.fs.links && p in Run(s, actions).fs.links
    ensures n < |actions| && p !in Run(s, actions[..n]).fs.links && p in Run(s, actions[..n + 1]).fs.links
  {
    hide Apply;
    var m := |actions| - 1;
    if p in Run(s, actions[..m]).fs.links {
      n := FirstLinked(s, actions[..m], p);
      assert actions[..m][..n] == actions[..n] && actions[..m][..n + 1] == actions[..n + 1];
    } else {
      n := m;
      assert actions[..m + 1] == actions;
    }
  }

  lemma {:induction false} LinksStay(s: State, actions: seq<Action>, n: nat, p: string)
    requires n <= |actions| && p in Run(s, actions[..n]).fs.links
    ensures p in Run(s, actions).fs.links
    decreases |actions|
  {
    hide Apply;
    if n < |actions| {
      var m := |actions| - 1;
      assert actions[..m][..n] == actions[..n];
      LinksStay(s, actions[..m], n, p);
      ApplyKeepsLinks(Run(s, actions[..m]), actions[m], p);
    } else {
      assert actions[..n] == actions;
    }
  }

  lemma {:induction false} ApplyKeepsLinks(s: State, a: Action, p: string)
    requires p in s.fs.links
    ensures p in Apply(s, a).fs.links
  {
  }

  /** A call that has not started, or is over, when a path it watches is linked never links its own. */
  lemma {:induction false} IdleNeverLinks(s: State, actions: seq<Action>, u: nat, p: string)
    requires u < |s.threads| && !InProgress(s.threads[u].pc) && p in s.fs.links && p in s.threads[u].call.siblings
    ensures u < |Run(s, actions).threads| && !Run(s, actions).threads[u].pc.Linking?
  {
    hide Apply;
    if s.threads[u].pc.Start? {
      var k :| 0 <= k < |s.threads[u].call.siblings| && s.threads[u].call.siblings[k] == p;
      assert actions[..0] == [];
      LateCallFails(s, actions, 0, u, k);
    } else {
      OverStaysOver(s, actions, u);
    }
  }

  lemma {:induction false} OverStaysOver(s: State, actions: seq<Action>, u: nat)
    requires u < |s.threads| && (s.threads[u].pc.Finished? || s.threads[u].pc.Killed?)
    ensures u < |Run(s, actions).threads|
    ensures Run(s, actions).threads[u].pc.Finished? || Run(s, actions).threads[u].pc.Killed?
  {
    hide Apply;
    if actions != [] {
      OverStaysOver(s, actions[..|actions| - 1], u);
      OverStep(Run(s, actions[..|actions| - 1]), actions[|actions| - 1], u);
    }
  }

  lemma {:induction false} OverStep(s: State, a: Action, u: nat)
    requires u < |s.threads| && (s.threads[u].pc.Finished? || s.threads[u].pc.Killed?)
    ensures u < |Apply(s, a).threads|
    ensures Apply(s, a).threads[u].pc.Finished? || Apply(s, a).threads[u].pc.Killed?
  {
  }

  /** Both paths are still free, and a call for each is under way. */
  ghost predicate Overlap(s: State, p: string, q: string) {
    p !in s.fs.links && q !in s.fs.links && Active(s, p) && Active(s, q)
  }

  lemma {:induction false} FirstThenSecond(s: State, actions: seq<Action>, n: nat, m: nat, p: string, q: string)
    requires n < m < |actions| && Watches(s, q, p)
    requires p !in Run(s, actions[..n]).fs.links && p in Run(s, actions[..n + 1]).fs.links
    requires q !in Run(s, actions[..m]).fs.links && q in Run(s, actions[..m + 1]).fs.links
    ensures Overlap(Run(s, actions[..n]), p, q)
  {
    hide Apply;
    var early, linked, late := Run(s, actions[..n]), Run(s, actions[..n + 1]), Run(s, actions[..m]);
    assert actions[..n + 1][..n] == actions[..n] && actions[..m + 1][..m] == actions[..m];
    LinkingStep(early, actions[n], p);
    LinkingStep(late, actions[m], q);
    assert Active(early, p);
    var u := actions[m].t;
    assert actions[..m] == actions[..n + 1] + actions[n + 1..m];
    RunAppend(s, actions[..n + 1], actions[n + 1..m]);
    RunKeepsCalls(s, actions[..n]);
    RunKeepsCalls(s, actions[..m]);
    RunKeepsCalls(s, actions[..n + 1]);
    if !InProgress(linked.threads[u].pc) {
      IdleNeverLinks(linked, actions[n + 1..m], u, p);
    }
    assert p != q by {
      LinksStay(s, actions[..m], n + 1, p);
      assert actions[..m][..n + 1] == actions[..n + 1];
    }
    OtherThreadOfPath(early, actions[n], u, p, q);
    if q in early.fs.links {
      assert actions[..m][..n] == actions[..n];
      LinksStay(s, actions[..m], n, q);
    }
  }

  lemma {:induction false} OtherThreadOfPath(s: State, a: Action, u: nat, p: string, q: string)
    requires a.t < |s.threads| && s.threads[a.t].call.destination == p != q
    requires u < |s.threads| && s.threads[u].call.destination == q
    requires u < |Apply(s, a).threads| && InProgress(Apply(s, a).threads[u].pc)
    ensures Active(s, q)
  {
    OtherThread(s, a, u);
  }

  /** One extension per asset is lost to calls that overlap, and to no others. Whenever two free paths that
      watch each other end up linked, whatever the calls reported, there was a point at which both were
      still free and a call for each was under way. */
  lemma {:induction false} BothLinkedMeansOverlap(s: State, actions: seq<Action>, p: string, q: string)
    requires p != q && p !in s.fs.links && q !in s.fs.links && Watches(s, p, q) && Watches(s, q, p)
    requires p in Run(s, actions).fs.links && q in Run(s, actions).fs.links
    ensures exists n :: 0 <= n <= |actions| && Overlap(Run(s, actions[..n]), p, q)
  {
    hide Apply, Run, Overlap, Watches;
    var n := FirstLinked(s, actions, p);
    var m := FirstLinked(s, actions, q);
    if n < m {
      FirstThenSecond(s, actions, n, m, p, q);
    } else if m < n {
      FirstThenSecond(s, actions, m, n, q, p);
      OverlapSymmetric(Run(s, actions[..m]), q, p);
    } else {
      SameStepSamePath(s, actions, n, p, q);
    }
  }

  lemma {:induction false} OverlapSymmetric(s: State, p: string, q: string)
    requires Overlap(s, p, q)
    ensures Overlap(s, q, p)
  {
  }

  lemma {:induction false} SameStepSamePath(s: State, actions: seq<Action>, n: nat, p: string, q: string)
    requires n < |actions|
    requires p !in Run(s, actions[..n]).fs.links && p in Run(s, actions[..n + 1]).fs.links
    requires q !in Run(s, actions[..n]).fs.links && q in Run(s, actions[..n + 1]).fs.links
    ensures p == q
  {
    hide Apply;
    assert actions[..n + 1][..n] == actions[..n];
    LinkingStep(Run(s, actions[..n]), actions[n], p);
    LinkingStep(Run(s, actions[..n]), actions[n], q);
  }

  /** One extension per asset ends where calls overlap: any two calls that start on free paths with no
      sibling stored can both succeed, also when each path is a sibling of the other. */
  lemma {:induction false} OverlappingCallsBothSucceed(s: State, t: nat, u: nat) returns (s': State)
    requires ReadyToStart(s, t) && ReadyToStart(s, u) && t != u
    requires NoSiblingLinked(s, t) && NoSiblingLinked(s, u)
    requires s.threads[t].call.destination != s.threads[u].call.destination
    ensures Reaches(s, s') && Ended(s', t, Success) && Ended(s', u, Success)
    ensures {s.threads[t].call.destination, s.threads[u].call.destination} <= s'.fs.links.Keys
  {
    assert Run(s, []) == s;
    assert Reaches(s, s);
    hide Run, Reaches, Apply;
    SoloStarts(s, s, t);
    var checked := At(s, t, CheckSibling(|s.threads[t].call.siblings|));
    SoloStarts(s, checked, u);
    var both := At(checked, u, CheckSibling(|s.threads[u].call.siblings|));
    var half := SoloSucceeds(s, both, t);
    s' := SoloSucceeds(s, half, u);
  }

  // ----- Errors have a cause -----

  predicate FaultyPc(pc: Pc) {
    pc == Finished(IoError) || (pc.Unlinking? && pc.outcome == IoError)
  }

  lemma {:induction false} NoErrorWithoutFault(s: State, a: Action, t: nat)
    requires t < |s.threads| && !FaultyPc(s.threads[t].pc) && a != Fault(t)
    ensures t < |Apply(s, a).threads| && !FaultyPc(Apply(s, a).threads[t].pc)
  {
  }

  lemma {:induction false} NoFaultNoError(s: State, actions: seq<Action>, t: nat)
    requires t < |s.threads| && s.threads[t].pc.Start? && Fault(t) !in actions
    ensures t < |Run(s, actions).threads| && !FaultyPc(Run(s, actions).threads[t].pc)
  {
    hide Apply;
    if actions != [] {
      var n := |actions| - 1;
      assert forall a :: a in actions[..n] ==> a in actions;
      NoFaultNoError(s, actions[..n], t);
      hide FaultyPc;
      assert actions[n] in actions;
      NoErrorWithoutFault(Run(s, actions[..n]), actions[n], t);
    }
  }

  /** A call that reports an operating-system error met one: no step of the protocol invents it. */
  lemma {:induction false} ErrorsAreFaults(s: State, actions: seq<Action>, t: nat)
    requires t < |s.threads| && s.threads[t].pc.Start?
    requires Ended(Run(s, actions), t, IoError)
    ensures Fault(t) in actions
  {
    hide Run;
    if Fault(t) !in actions {
      NoFaultNoError(s, actions, t);
    }
  }

  // ----- A call on its own -----

  /** What a call that runs undisturbed from its start reports. */
  function SoloOutcome(fs: FileSystem, call: Call): Outcome {
    if call.data == [] then InvalidInput
    else if exists k :: 0 <= k < |call.siblings| && call.siblings[k] in fs.links then DifferentMetadata
    else if call.destination in fs.links && !(Linked(fs, call.destination)
      && Content(fs, call.destination) == call.data) then
      DifferentBytes
    else Success
  }

  /** Only steps of this call, none of them failing. */
  ghost predicate Undisturbed(actions: seq<Action>, t: nat) {
    forall i :: 0 <= i < |actions| ==> actions[i].t == t && (actions[i].Go? || actions[i].Write?)
  }

  /** Where an undisturbed call is, seen from where it started. */
  ghost predicate SoloAt(origin: State, s: State, t: nat)
    requires t < |origin.threads|
  {
    && t < |s.threads| && s.threads[t].call == origin.threads[t].call
    && var call, o := s.threads[t].call, SoloOutcome(origin.fs, origin.threads[t].call);
    match s.threads[t].pc
    case Start => s.fs == origin.fs
    case CheckSibling(i) =>
      && s.fs == origin.fs && call.data != []
      && forall k :: 0 <= k < i && k < |call.siblings| ==> call.siblings[k] !in s.fs.links
    case MakeParent => s.fs == origin.fs && o in {Success, DifferentBytes}
    case CheckDestination => s.fs == origin.fs && o in {Success, DifferentBytes}
    case ReadExisting => s.fs == origin.fs && o in {Success, DifferentBytes} && call.destination in s.fs.links
    case CreateTemporary => o == Success && call.destination !in s.fs.links
    case Writing(_, _) => o == Success && call.destination !in s.fs.links
    case Linking(_) => o == Success && call.destination !in s.fs.links
    case Unlinking(_, outcome) => outcome == o
    case Finished(outcome) => outcome == o
    case _ => false
  }

  lemma {:induction false} SoloStep(origin: State, s: State, t: nat, a: Action)
    requires t < |origin.threads| && SoloAt(origin, s, t) && a.t == t && (a.Go? || a.Write?)
    ensures SoloAt(origin, Apply(s, a), t)
  {
  }

  /** On its own a call reports exactly this: invalid input, another extension, other bytes, or success, also
      when its bytes are there already. */
  lemma {:induction false} SoloReports(s: State, actions: seq<Action>, t: nat)
    requires t < |s.threads| && s.threads[t].pc.Start? && Undisturbed(actions, t)
    ensures SoloAt(s, Run(s, actions), t)
    ensures forall o :: Ended(Run(s, actions), t, o) ==> o == SoloOutcome(s.fs, s.threads[t].call)
  {
    hide Apply, SoloOutcome;
    if actions != [] {
      var n := |actions| - 1;
      SoloReports(s, actions[..n], t);
      hide SoloAt;
      SoloStep(s, Run(s, actions[..n]), t, actions[n]);
    }
    SoloEnds(s, Run(s, actions), t);
  }

  lemma {:induction false} SoloEnds(origin: State, s: State, t: nat)
    requires t < |origin.threads| && SoloAt(origin, s, t)
    ensures forall o :: Ended(s, t, o) ==> o == SoloOutcome(origin.fs, origin.threads[t].call)
  {
  }

  /** Left alone after its sibling checks, a call whose bytes are stored already succeeds. */
  lemma {:induction false} SoloRepeats(origin: State, s: State, t: nat) returns (s': State)
    requires Reaches(origin, s) && t < |s.threads| && Linked(s.fs, s.threads[t].call.destination)
    requires Content(s.fs, s.threads[t].call.destination) == s.threads[t].call.data
    requires s.threads[t].pc == CheckSibling(|s.threads[t].call.siblings|)
    ensures Reaches(origin, s') && Ended(s', t, Success)
  {
    hide Run, Reaches;
    ReachesStep(origin, s, Go(t));
    s' := At(s, t, MakeParent);
    ReachesStep(origin, s', Go(t));
    s' := At(s, t, CheckDestination);
    ReachesStep(origin, s', Go(t));
    s' := At(s, t, ReadExisting);
    ReachesStep(origin, s', Go(t));
    s' := Apply(s', Go(t));
  }

  lemma {:induction false} SuccessKeepsBytes(initial: map<string, Bytes>, s: State, t: nat, s': State)
    requires Inv(initial, s) && t < |s.threads| && Reaches(s, s') && Ended(s', t, Success)
    requires s.threads[t].call.destination in s.fs.links
    ensures Linked(s.fs, s.threads[t].call.destination)
    ensures Content(s.fs, s.threads[t].call.destination) == s.threads[t].call.data
  {
    hide Run;
    var actions :| Run(s, actions) == s';
    RunKeepsInv(initial, s, actions);
    InvParts(initial, s, t);
    InvParts(initial, s', t);
    hide Inv;
  }

  /** From wherever a call with bytes starts, free path or not, it can succeed if and only if no other extension
      of its asset is stored at that moment, and what is stored on its path are its bytes: a repeated store
      of the same bytes succeeds. */
  lemma {:induction false} CanSucceedIff(initial: map<string, Bytes>, s: State, t: nat)
    requires Inv(initial, s) && t < |s.threads| && s.threads[t].pc.Start? && s.threads[t].call.data != []
    ensures var p := s.threads[t].call.destination;
            (exists s' :: Reaches(s, s') && Ended(s', t, Success)) <==>
            && NoSiblingLinked(s, t)
            && (p in s.fs.links ==> Linked(s.fs, p) && Content(s.fs, p) == s.threads[t].call.data)
  {
    hide Apply, Inv;
    var p := s.threads[t].call.destination;
    if p !in s.fs.links {
      CanSucceedIffNoSibling(s, t);
    } else {
      if NoSiblingLinked(s, t) && Linked(s.fs, p) && Content(s.fs, p) == s.threads[t].call.data {
        assert Run(s, []) == s;
        assert Reaches(s, s);
        SoloStarts(s, s, t);
        var s' := SoloRepeats(s, At(s, t, CheckSibling(|s.threads[t].call.siblings|)), t);
      }
      if s' :| Reaches(s, s') && Ended(s', t, Success) {
        SuccessKeepsBytes(initial, s, t, s');
        SuccessNeedsNoSibling(s, t, s');
      }
    }
  }

  lemma {:induction false} SuccessNeedsNoSibling(s: State, t: nat, s': State)
    requires t < |s.threads| && s.threads[t].pc.Start? && Reaches(s, s') && Ended(s', t, Success)
    ensures NoSiblingLinked(s, t)
  {
    hide Apply;
    var actions :| Run(s, actions) == s';
    forall k | 0 <= k < |s.threads[t].call.siblings| ensures s.threads[t].call.siblings[k] !in s.fs.links {
      if s.threads[t].call.siblings[k] in s.fs.links {
        assert actions[..0] == [];
        LateCallFails(s, actions, 0, t, k);
      }
    }
  }

  // ----- Temporary names -----

  /** The temporary file a call still has to remove. */
  function HeldFile(pc: Pc): int {
    match pc
    case Writing(file, _) => file
    case Linking(file) => file
    case ReadConflict(file) => file
    case Unlinking(file, _) => file
    case _ => -1
  }

  ghost predicate Held(s: State, file: nat) {
    exists t :: 0 <= t < |s.threads| && HeldFile(s.threads[t].pc) == file
  }

  /** Killing a call that holds a temporary file, or failing its removal, leaves the file behind. */
  ghost predicate LeavesBehind(s: State, a: Action) {
    && a.t < |s.threads| && HeldFile(s.threads[a.t].pc) >= 0
    && (a.Kill? || (a.Fault? && s.threads[a.t].pc.Unlinking?))
  }

  lemma {:induction false} TemporariesStep(s: State, a: Action)
    requires forall f :: f in s.fs.temporaries ==> Held(s, f)
    requires !LeavesBehind(s, a)
    ensures forall f :: f in Apply(s, a).fs.temporaries ==> Held(Apply(s, a), f)
  {
    var s' := Apply(s, a);
    forall f | f in s'.fs.temporaries ensures Held(s', f) {
      if f in s.fs.temporaries {
        var t :| 0 <= t < |s.threads| && HeldFile(s.threads[t].pc) == f;
        if t != a.t {
          OtherThread(s, a, t);
        }
        assert HeldFile(s'.threads[t].pc) == f;
      } else {
        assert HeldFile(s'.threads[a.t].pc) == f;
      }
    }
  }

  /** Temporary files are cleaned up: unless a call was killed or could not remove its file, every temporary file
      belongs to a call that is still at work, so none is left when all are done. */
  lemma {:induction false} TemporariesAreHeld(s: State, actions: seq<Action>)
    requires s.fs.temporaries == {}
    requires forall i :: 0 <= i < |actions| ==> !LeavesBehind(Run(s, actions[..i]), actions[i])
    ensures forall f :: f in Run(s, actions).fs.temporaries ==> Held(Run(s, actions), f)
    ensures (forall t :: 0 <= t < |Run(s, actions).threads| ==> !InProgress(Run(s, actions).threads[t].pc)) ==>
              Run(s, actions).fs.temporaries == {}
  {
    hide Apply, LeavesBehind;
    if actions != [] {
      var n := |actions| - 1;
      forall i | 0 <= i < n ensures !LeavesBehind(Run(s, actions[..n][..i]), actions[..n][i]) {
        assert actions[..n][..i] == actions[..i];
      }
      TemporariesAreHeld(s, actions[..n]);
      TemporariesStep(Run(s, actions[..n]), actions[n]);
    }
    hide Run;
    assert (forall t :: 0 <= t < |Run(s, actions).threads| ==> !InProgress(Run(s, actions).threads[t].pc)) ==>
        forall f :: f !in Run(s, actions).fs.temporaries;
  }
}
