/**
 * The static constructor of AssemblyPostProcessor (lines 12-110): lock
 * assembly reloading, collect the project's assemblies, then for each one pick
 * its symbol settings, read it, weave it and write it back when the weaver
 * changed it; unlock at the end. Everything runs inside one try: the first
 * exception, wherever it is thrown, ends the batch, and the unlock is never
 * reached.
 *
 * The host is an input: the loaded assemblies' locations, the data path, the
 * files that exist, the assembly ReadAssembly yields for each path it can read,
 * and the paths Write fails on.
 */
module PostProcessor {
  import opened Options
  import opened Cecil
  import opened Weaver
  import opened Walk
  import opened Symbols
  import opened ProjectFilter

  /** One call of AssemblyDefinition.Write: the path and the symbol settings of the writer parameters. */
  datatype Write = Write(path: string, writeSymbols: bool, symbolWriterProvider: Option<SymbolWriterProvider>)

  /** The Unity editor and the file system, as far as the constructor changes them. */
  class Host {
    /** EditorApplication's reload lock count: reloading resumes when it is back to its former value. */
    var reloadLocks: nat
    /** The assemblies written back, in order. */
    var writes: seq<Write>

    constructor ()
      ensures reloadLocks == 0 && writes == []
    {
      reloadLocks := 0;
      writes := [];
    }

    method LockReloadAssemblies()
      modifies this
      ensures reloadLocks == old(reloadLocks) + 1 && writes == old(writes)
    {
      reloadLocks := reloadLocks + 1;
    }

    method UnlockReloadAssemblies()
      modifies this
      ensures reloadLocks == (if old(reloadLocks) > 0 then old(reloadLocks) - 1 else 0) && writes == old(writes)
    {
      if reloadLocks > 0 {
        reloadLocks := reloadLocks - 1;
      }
    }

    method WriteAssembly(path: string, writerParameters: WriterParameters)
      modifies this
      ensures writes == old(writes) + [Write(path, writerParameters.writeSymbols, writerParameters.symbolWriterProvider)]
      ensures reloadLocks == old(reloadLocks)
    {
      writes := writes + [Write(path, writerParameters.writeSymbols, writerParameters.symbolWriterProvider)];
    }
  }

  /** What happened to one queued assembly. */
  datatype Step = Skipped | Rewritten(write: Write) | Aborted

  /** No path is listed twice. */
  predicate NoRepeats(order: seq<string>)
  {
    forall i, j | 0 <= i < j < |order| :: order[i] != order[j]
  }

  /** The assemblies ReadAssembly yields, given with their methods' states: each path's state list fits its sites. */
  predicate Fits(images: map<string, AssemblyDefinition>, states: map<string, seq<MethodState>>)
  {
    forall p | p in images :: p in states && |states[p]| == |AssemblySites(images[p])|
  }

  /** What ProcessAssembly makes of the assembly at `p`, from the states its methods start in. */
  function WeaveOutcome(images: map<string, AssemblyDefinition>, states: map<string, seq<MethodState>>, p: string): Outcome
    requires Fits(images, states) && p in images
  {
    VisitOutcome(AssemblySites(images[p]), states[p])
  }

  /**
   * Lines 59-100 for the assembly at `path`, given what became of reading it:
   * `None` when ReadAssembly threw, else the weaver's outcome. The pdb path is
   * cut first (which throws for a path under three characters); the assembly
   * is written back with the chosen symbol settings when the weaver reports a
   * change, and Write throws for the paths in `unwritable`.
   */
  function PathStep(path: string, files: set<string>, weave: Option<Outcome>, unwritable: set<string>): Step
  {
    match PdbPath(path)
    case None => Aborted
    case Some(pdbPath) =>
      match weave
      case None => Aborted
      case Some(outcome) =>
        var settings := SymbolSettingsFor(pdbPath in files, MdbPath(path) in files);
        WrittenStep(path, outcome, unwritable, settings.writeSymbols, settings.symbolWriterProvider)
  }

  /**
   * Lines 88-100 once the assembly is read: a throw from the weaver ends the
   * batch, an unchanged assembly is skipped, a changed one is written back
   * with the writer's symbol settings unless Write throws.
   */
  function WrittenStep(path: string, outcome: Outcome, unwritable: set<string>, writeSymbols: bool,
                       symbolWriterProvider: Option<SymbolWriterProvider>): Step
  {
    match outcome
    case Threw(_) => Aborted
    case Returned(false) => Skipped
    case Returned(true) =>
      if path in unwritable then Aborted else Rewritten(Write(path, writeSymbols, symbolWriterProvider))
  }

  /** The step of `path` when the assemblies read are `images`, their methods in `states`. */
  function StepFor(path: string, files: set<string>, images: map<string, AssemblyDefinition>,
                   states: map<string, seq<MethodState>>, unwritable: set<string>): Step
    requires Fits(images, states)
  {
    PathStep(path, files, if path in images then Some(WeaveOutcome(images, states, path)) else None, unwritable)
  }

  /** The steps of the paths of `order`, in order. */
  function StepsFor(order: seq<string>, files: set<string>, images: map<string, AssemblyDefinition>,
                    states: map<string, seq<MethodState>>, unwritable: set<string>): (r: seq<Step>)
    requires Fits(images, states)
    ensures |r| == |order|
  {
    if order == [] then []
    else StepsFor(order[..|order| - 1], files, images, states, unwritable)
         + [StepFor(order[|order| - 1], files, images, states, unwritable)]
  }

  /** The step at `i` is the step of the path at `i`. */
  lemma {:induction false} StepsForAt(order: seq<string>, files: set<string>, images: map<string, AssemblyDefinition>,
                                      states: map<string, seq<MethodState>>, unwritable: set<string>, i: nat)
    requires Fits(images, states) && i < |order|
    ensures StepsFor(order, files, images, states, unwritable)[i] == StepFor(order[i], files, images, states, unwritable)
  {
    if i < |order| - 1 {
      StepsForAt(order[..|order| - 1], files, images, states, unwritable, i);
    }
  }

  /** The writes a list of steps makes, in order. */
  function WritesOf(steps: seq<Step>): (r: seq<Write>)
    ensures |r| <= |steps|
  {
    if steps == [] then []
    else WritesOf(steps[..|steps| - 1]) + (if steps[|steps| - 1].Rewritten? then [steps[|steps| - 1].write] else [])
  }

  /** The writes are the writes of the Rewritten steps. */
  lemma {:induction false} WritesOfMeaning(steps: seq<Step>, w: Write)
    ensures w in WritesOf(steps) <==> Rewritten(w) in steps
  {
    if steps != [] {
      var init := steps[..|steps| - 1];
      WritesOfMeaning(init, w);
      assert steps == init + [steps[|steps| - 1]];
    }
  }

  /**
   * For an assembly the batch got through, it wrote the assembly back exactly
   * when the weaver changed it, which is when some method of it was marked;
   * and it wrote it to its own path.
   */
  lemma WrittenIffWoven(order: seq<string>, files: set<string>, images: map<string, AssemblyDefinition>,
                        states: map<string, seq<MethodState>>, unwritable: set<string>, i: nat)
    requires Fits(images, states) && i < |order|
    requires StepsFor(order, files, images, states, unwritable)[i] != Aborted
    ensures var step := StepsFor(order, files, images, states, unwritable)[i];
      && order[i] in images
      && (step.Rewritten? <==> AnyMarked(states[order[i]]))
      && (step.Rewritten? ==> step.write.path == order[i])
      && (step.Rewritten? ==>
            && |order[i]| >= 3
            && step.write.writeSymbols == (PdbPath(order[i]).value in files || MdbPath(order[i]) in files))
  {
    StepsForAt(order, files, images, states, unwritable, i);
    VisitOutcomeMeaning(AssemblySites(images[order[i]]), states[order[i]]);
  }

  /**
   * A path ends the batch exactly when its pdb path cannot be cut, it cannot
   * be read, weaving one of its methods throws (a marked method with no body
   * or an empty one), or it was woven and cannot be written.
   */
  lemma StepAborted(path: string, files: set<string>, images: map<string, AssemblyDefinition>,
                    states: map<string, seq<MethodState>>, unwritable: set<string>)
    requires Fits(images, states)
    ensures StepFor(path, files, images, states, unwritable) == Aborted <==>
      || |path| < 3
      || path !in images
      || (exists k | 0 <= k < |AssemblySites(images[path])| :: FailsAt(AssemblySites(images[path])[k], states[path][k]))
      || (AnyMarked(states[path]) && path in unwritable)
  {
    if path in images {
      VisitOutcomeMeaning(AssemblySites(images[path]), states[path]);
    }
  }

  /**
   * The states `s1` the assemblies' methods are in after the batch visited
   * the paths of `order`, from the states `s0` they started in: an assembly
   * visited whose pdb path could be cut was read and woven; every other
   * assembly is untouched.
   */
  predicate StatesAfter(order: seq<string>, images: map<string, AssemblyDefinition>,
                        s0: map<string, seq<MethodState>>, s1: map<string, seq<MethodState>>)
    requires Fits(images, s0) && Fits(images, s1)
  {
    forall p | p in images ::
      if p in order && PdbPath(p).Some? then VisitStates(AssemblySites(images[p]), s0[p], s1[p])
      else s1[p] == s0[p]
  }

  /**
   * What the batch leaves in an assembly's methods, by what became of its
   * path: the assembly written back holds every method woven (the marked ones
   * rewritten and their marker removed, the others untouched), and a skipped
   * assembly holds every method as it was read.
   */
  lemma WrittenIsWoven(order: seq<string>, files: set<string>, images: map<string, AssemblyDefinition>,
                       s0: map<string, seq<MethodState>>, s1: map<string, seq<MethodState>>,
                       unwritable: set<string>, i: nat)
    requires Fits(images, s0) && Fits(images, s1) && i < |order|
    requires StatesAfter(order, images, s0, s1)
    ensures var step := StepsFor(order, files, images, s0, unwritable)[i];
      var p := order[i];
      && (step.Rewritten? ==>
            && p in images
            && forall k | 0 <= k < |AssemblySites(images[p])| :: Woven(AssemblySites(images[p])[k], s0[p][k], s1[p][k]))
      && (step == Skipped ==> p in images && s1[p] == s0[p])
  {
    StepsForAt(order, files, images, s0, unwritable, i);
    var p := order[i];
    if p in images && PdbPath(p).Some? {
      var sites := AssemblySites(images[p]);
      VisitOutcomeMeaning(sites, s0[p]);
      VisitStatesMeaning(sites, s0[p], s1[p]);
      if !AnyMarked(s0[p]) {
        UnmarkedVisit(sites, s0[p], s1[p]);
      }
    }
  }

  /** The methods of all the assemblies read. */
  ghost function ImageMethods(images: map<string, AssemblyDefinition>): set<MethodDefinition>
  {
    set p, m | p in images && m in MethodsOf(AssemblySites(images[p])) :: m
  }

  /** The states of the methods of every assembly read. */
  ghost function ImageStates(images: map<string, AssemblyDefinition>): (r: map<string, seq<MethodState>>)
    reads ImageMethods(images)
    ensures Fits(images, r)
  {
    map p | p in images :: StatesOf(AssemblySites(images[p]))
  }

  /**
   * Each ReadAssembly builds its own object graph: within one assembly no
   * method is listed twice, and no two paths share a method.
   */
  ghost predicate Separate(images: map<string, AssemblyDefinition>)
  {
    && (forall p | p in images :: Distinct(AssemblySites(images[p])))
    && (forall p, q | p in images && q in images && p != q ::
          MethodsOf(AssemblySites(images[p])) !! MethodsOf(AssemblySites(images[q])))
  }

  /** Every method of the assembly read from `p` is among the methods of all the assemblies read. */
  lemma ImageMethodsOf(images: map<string, AssemblyDefinition>, p: string)
    requires p in images
    ensures MethodsOf(AssemblySites(images[p])) <= ImageMethods(images)
  {
  }

  /**
   * The hash set of paths split into the paths visited, in order and each
   * once, and the paths still to come.
   */
  predicate Queued(order: seq<string>, remaining: set<string>, assemblyPaths: set<string>)
  {
    && remaining <= assemblyPaths
    && NoRepeats(order)
    && (forall p | p in order :: p in assemblyPaths && p !in remaining)
    && (forall p | p in assemblyPaths && p !in remaining :: p in order)
  }

  /** Taking one more path out of the hash set keeps the split. */
  lemma QueueStep(order: seq<string>, remaining: set<string>, assemblyPaths: set<string>, p: string)
    requires Queued(order, remaining, assemblyPaths) && p in remaining
    ensures Queued(order + [p], remaining - {p}, assemblyPaths)
  {
    var next := order + [p];
    forall i, j | 0 <= i < j < |next|
      ensures next[i] != next[j]
    {
      if j < |order| {
        assert next[i] == order[i] && next[j] == order[j];
      } else {
        assert next[i] == order[i];
      }
    }
  }

  /**
   * One pass of the second loop (lines 59-100) for `assemblyPath`: choose the
   * symbol settings, read the assembly, weave it and write it back when the
   * weaver changed it. `image` is what ReadAssembly yields for the path, `None`
   * when it throws. The returned step is what became of the path.
   */
  method ProcessPath(host: Host, assemblyPath: string, files: set<string>, image: Option<AssemblyDefinition>,
                     unwritable: set<string>, readerParameters: ReaderParameters, writerParameters: WriterParameters)
    returns (step: Step)
    requires image.Some? ==> Distinct(AssemblySites(image.value))
    modifies host, readerParameters, writerParameters
    modifies if image.Some? then MethodsOf(AssemblySites(image.value)) else {}
    ensures step == PathStep(assemblyPath, files,
      if image.Some? then Some(VisitOutcome(AssemblySites(image.value), old(StatesOf(AssemblySites(image.value)))))
      else None,
      unwritable)
    ensures host.writes == old(host.writes) + (if step.Rewritten? then [step.write] else [])
    ensures host.reloadLocks == old(host.reloadLocks)
    ensures image.Some? && PdbPath(assemblyPath).Some? ==>
      VisitStates(AssemblySites(image.value), old(StatesOf(AssemblySites(image.value))), StatesOf(AssemblySites(image.value)))
    ensures image.Some? && PdbPath(assemblyPath).None? ==>
      StatesOf(AssemblySites(image.value)) == old(StatesOf(AssemblySites(image.value)))
    ensures PdbPath(assemblyPath).Some? ==>
      SettingsOf(readerParameters, writerParameters)
      == SymbolSettingsFor(PdbPath(assemblyPath).value in files, MdbPath(assemblyPath) in files)
  {
    var mdbPath := MdbPath(assemblyPath);
    var pdbPath := PdbPath(assemblyPath);
    if pdbPath.None? {
      return Aborted;
    }
    ConfigureSymbols(readerParameters, writerParameters, pdbPath.value in files, mdbPath in files);
    if image.None? {
      return Aborted;
    }
    var assemblyDefinition := image.value;
    // the parameter objects hold no method
    assert old(allocated(AssemblySites(assemblyDefinition)));
    assert forall m: MethodDefinition | m in MethodsOf(AssemblySites(assemblyDefinition)) ::
      m.instructions == old(m.instructions);
    step := WeaveAndWrite(host, assemblyPath, assemblyDefinition, unwritable, writerParameters);
  }

  /**
   * Lines 88-100 once the assembly is read: weave it and write it back when
   * the weaver reports a change. The assembly written is the woven one: its
   * methods hold the states the weave left them in.
   */
  method WeaveAndWrite(host: Host, assemblyPath: string, assemblyDefinition: AssemblyDefinition,
                       unwritable: set<string>, writerParameters: WriterParameters)
    returns (step: Step)
    requires Distinct(AssemblySites(assemblyDefinition))
    modifies host, MethodsOf(AssemblySites(assemblyDefinition))
    ensures step == WrittenStep(assemblyPath, VisitOutcome(AssemblySites(assemblyDefinition),
                                                           old(StatesOf(AssemblySites(assemblyDefinition)))),
                                unwritable, writerParameters.writeSymbols, writerParameters.symbolWriterProvider)
    ensures VisitStates(AssemblySites(assemblyDefinition), old(StatesOf(AssemblySites(assemblyDefinition))),
                        StatesOf(AssemblySites(assemblyDefinition)))
    ensures host.writes == old(host.writes) + (if step.Rewritten? then [step.write] else [])
    ensures host.reloadLocks == old(host.reloadLocks)
  {
    var outcome := ProcessAssembly(assemblyDefinition);
    if outcome.Threw? {
      return Aborted;
    }
    if !outcome.wasProcessed {
      return Skipped;
    }
    if assemblyPath in unwritable {
      return Aborted;
    }
    ghost var woven := StatesOf(AssemblySites(assemblyDefinition));
    label BeforeWrite:
    host.WriteAssembly(assemblyPath, writerParameters);
    // the host holds no method
    assert forall m: MethodDefinition | m in MethodsOf(AssemblySites(assemblyDefinition)) ::
      m.instructions == old@BeforeWrite(m.instructions);
    assert StatesOf(AssemblySites(assemblyDefinition)) == woven;
    step := Rewritten(Write(assemblyPath, writerParameters.writeSymbols, writerParameters.symbolWriterProvider));
  }

  /**
   * ProcessPath with ReadAssembly yielding the assembly `images` holds for the
   * path, if any: only that assembly's methods change.
   */
  method ReadAndProcess(host: Host, assemblyPath: string, files: set<string>, images: map<string, AssemblyDefinition>,
                        unwritable: set<string>, readerParameters: ReaderParameters, writerParameters: WriterParameters)
    returns (step: Step)
    requires Separate(images)
    modifies host, readerParameters, writerParameters
    modifies if assemblyPath in images then MethodsOf(AssemblySites(images[assemblyPath])) else {}
    ensures step == PathStep(assemblyPath, files,
      if assemblyPath in images
      then Some(VisitOutcome(AssemblySites(images[assemblyPath]), old(StatesOf(AssemblySites(images[assemblyPath])))))
      else None,
      unwritable)
    ensures host.writes == old(host.writes) + (if step.Rewritten? then [step.write] else [])
    ensures host.reloadLocks == old(host.reloadLocks)
    ensures forall q | q in images && q != assemblyPath ::
      StatesOf(AssemblySites(images[q])) == old(StatesOf(AssemblySites(images[q])))
    ensures assemblyPath in images && PdbPath(assemblyPath).Some? ==>
      VisitStates(AssemblySites(images[assemblyPath]), old(StatesOf(AssemblySites(images[assemblyPath]))),
                  StatesOf(AssemblySites(images[assemblyPath])))
    ensures assemblyPath in images && PdbPath(assemblyPath).None? ==>
      StatesOf(AssemblySites(images[assemblyPath])) == old(StatesOf(AssemblySites(images[assemblyPath])))
  {
    var image := if assemblyPath in images then Some(images[assemblyPath]) else None;
    step := ProcessPath(host, assemblyPath, files, image, unwritable, readerParameters, writerParameters);
    // no other assembly shares a method with this one
    forall q | q in images && q != assemblyPath
      ensures StatesOf(AssemblySites(images[q])) == old(StatesOf(AssemblySites(images[q])))
    {
      assert old(allocated(AssemblySites(images[q])));
      if assemblyPath in images {
        assert MethodsOf(AssemblySites(images[q])) !! MethodsOf(AssemblySites(images[assemblyPath]));
      }
      assert forall m: MethodDefinition | m in MethodsOf(AssemblySites(images[q])) ::
        m.instructions == old(m.instructions);
    }
  }

  /**
   * ReadAndProcess for the next path of the hash set, stated in terms of the
   * whole batch so far: the steps and the writes grow by that path's, and
   * the assemblies' methods are in the states the batch so far leaves them.
   */
  method VisitPath(host: Host, assemblyPath: string, files: set<string>, images: map<string, AssemblyDefinition>,
                   unwritable: set<string>, readerParameters: ReaderParameters, writerParameters: WriterParameters,
                   ghost s0: map<string, seq<MethodState>>, ghost order: seq<string>, ghost steps: seq<Step>,
                   ghost w0: seq<Write>)
    returns (step: Step)
    requires Separate(images) && Fits(images, s0) && assemblyPath !in order
    requires steps == StepsFor(order, files, images, s0, unwritable)
    requires host.writes == w0 + WritesOf(steps)
    requires forall q | q in images ::
      if q in order && PdbPath(q).Some? then VisitStates(AssemblySites(images[q]), s0[q], StatesOf(AssemblySites(images[q])))
      else StatesOf(AssemblySites(images[q])) == s0[q]
    modifies host, readerParameters, writerParameters
    modifies if assemblyPath in images then MethodsOf(AssemblySites(images[assemblyPath])) else {}
    ensures steps + [step] == StepsFor(order + [assemblyPath], files, images, s0, unwritable)
    ensures host.writes == w0 + WritesOf(steps + [step])
    ensures host.reloadLocks == old(host.reloadLocks)
    ensures forall q | q in images ::
      if q in order + [assemblyPath] && PdbPath(q).Some?
      then VisitStates(AssemblySites(images[q]), s0[q], StatesOf(AssemblySites(images[q])))
      else StatesOf(AssemblySites(images[q])) == s0[q]
  {
    step := ReadAndProcess(host, assemblyPath, files, images, unwritable, readerParameters, writerParameters);
    assert (order + [assemblyPath])[..|order|] == order;
    ghost var added := if step.Rewritten? then [step.write] else [];
    assert WritesOf(steps + [step]) == WritesOf(steps) + added;
    Reassociate(w0, WritesOf(steps), added);
  }

  /**
   * Lines 55-101: take the paths out of the hash set one by one and process
   * each with the shared reader and writer parameters. The first path whose
   * processing throws ends the loop; `order` is the paths taken, in order, and
   * `steps` what became of each.
   */
  method WeaveAll(host: Host, assemblyPaths: set<string>, files: set<string>,
                  images: map<string, AssemblyDefinition>, unwritable: set<string>,
                  readerParameters: ReaderParameters, writerParameters: WriterParameters)
    returns (order: seq<string>, steps: seq<Step>)
    requires Separate(images)
    modifies host, readerParameters, writerParameters, ImageMethods(images)
    ensures NoRepeats(order) && forall p | p in order :: p in assemblyPaths
    ensures Aborted !in steps ==> forall p | p in assemblyPaths :: p in order
    ensures steps == StepsFor(order, files, images, old(ImageStates(images)), unwritable)
    ensures forall i | 0 <= i < |steps| - 1 :: steps[i] != Aborted
    ensures host.writes == old(host.writes) + WritesOf(steps)
    ensures host.reloadLocks == old(host.reloadLocks)
    ensures StatesAfter(order, images, old(ImageStates(images)), ImageStates(images))
  {
    ghost var s0 := old(ImageStates(images));
    order, steps := [], [];
    var remaining := assemblyPaths;
    while remaining != {}
      invariant Queued(order, remaining, assemblyPaths)
      invariant steps == StepsFor(order, files, images, s0, unwritable) && Aborted !in steps
      invariant host.writes == old(host.writes) + WritesOf(steps)
      invariant host.reloadLocks == old(host.reloadLocks)
      invariant forall q | q in images ::
        if q in order && PdbPath(q).Some? then VisitStates(AssemblySites(images[q]), s0[q], StatesOf(AssemblySites(images[q])))
        else StatesOf(AssemblySites(images[q])) == s0[q]
      decreases remaining
    {
      var assemblyPath :| assemblyPath in remaining;
      QueueStep(order, remaining, assemblyPaths, assemblyPath);
      if assemblyPath in images {
        ImageMethodsOf(images, assemblyPath);
      }
      var step := VisitPath(host, assemblyPath, files, images, unwritable, readerParameters, writerParameters,
                            s0, order, steps, old(host.writes));
      remaining := remaining - {assemblyPath};
      order, steps := order + [assemblyPath], steps + [step];
      if step == Aborted {
        return;
      }
    }
  }

  /** When no method that existed before has changed, the states of `sites` have not. */
  twostate lemma {:induction false} StatesUnchanged(sites: seq<Site>)
    requires forall m: MethodDefinition | old(allocated(m)) ::
      m.instructions == old(m.instructions) && m.customAttributes == old(m.customAttributes)
    ensures StatesOf(sites) == old(StatesOf(sites))
  {
    if sites != [] {
      StatesUnchanged(sites[1..]);
      assert sites[0].methodDefinition.State() == old(sites[0].methodDefinition.State());
    }
  }

  /** When no method that existed before has changed, no assembly's states have. */
  twostate lemma ImagesUnchanged(images: map<string, AssemblyDefinition>)
    requires forall m: MethodDefinition | old(allocated(m)) ::
      m.instructions == old(m.instructions) && m.customAttributes == old(m.customAttributes)
    ensures ImageStates(images) == old(ImageStates(images))
  {
    forall q | q in images
      ensures StatesOf(AssemblySites(images[q])) == old(StatesOf(AssemblySites(images[q])))
    {
      assert old(allocated(AssemblySites(images[q])));
      StatesUnchanged(AssemblySites(images[q]));
    }
  }

  /**
   * The static constructor (lines 12-110). Everything sits in one try whose
   * handler only logs: the first exception ends the batch with assembly
   * reloading still locked.
   */
  method Run(host: Host, locations: seq<string>, dataPath: string, files: set<string>,
             images: map<string, AssemblyDefinition>, unwritable: set<string>)
    returns (order: seq<string>, steps: seq<Step>)
    requires Separate(images)
    modifies host, ImageMethods(images)
    ensures |locations| > 0 && |dataPath| < 7 ==> order == [] && steps == []
    ensures NoRepeats(order) && forall p | p in order :: p in locations && InProject(p, dataPath)
    ensures steps == StepsFor(order, files, images, old(ImageStates(images)), unwritable)
    ensures forall i | 0 <= i < |steps| - 1 :: steps[i] != Aborted
    ensures !(|locations| > 0 && |dataPath| < 7) && Aborted !in steps ==>
      forall p | p in locations && InProject(p, dataPath) :: p in order
    ensures host.writes == old(host.writes) + WritesOf(steps)
    ensures StatesAfter(order, images, old(ImageStates(images)), ImageStates(images))
    ensures host.reloadLocks
            == old(host.reloadLocks) + (if (|locations| > 0 && |dataPath| < 7) || Aborted in steps then 1 else 0)
  {
    host.LockReloadAssemblies();
    order, steps := [], [];
    var collected := CollectAssemblies(locations, dataPath);
    if collected.None? {
      ImagesUnchanged(images);
      return;
    }
    var readerParameters := new ReaderParameters();
    var writerParameters := new WriterParameters();
    ImagesUnchanged(images);
    order, steps := WeaveAll(host, collected.value.assemblyPaths, files, images, unwritable,
                             readerParameters, writerParameters);
    if Aborted in steps {
      return;
    }
    label Woven:
    host.UnlockReloadAssemblies();
    ImagesUnchanged@Woven(images);
  }
}
