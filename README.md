# AssemblyPostProcessor, modelled in Dafny

`Assets/Editor/AssemblyPostProcessor.cs` is a Unity editor script. Its static constructor runs when the editor loads. It locks assembly reloading, then collects the project's own assemblies from the loaded ones. For each assembly it chooses the debug-symbol settings, reads the assembly with Mono.Cecil, weaves it, and writes it back if the weaver changed anything. Finally it unlocks reloading. The weaver, `ProcessAssembly`, visits every method of every top-level type of every module. It looks for the first custom attribute whose type's `FullName` is `"LogAttribute"`. For a marked method it inserts `ldstr "Enter T.M"; call Debug.Log` before the first instruction. It then inserts `ldstr "Exit T.M"; call Debug.Log` before the last instruction, which it reads again after the first insertion. Last, it removes that attribute. It returns whether any method was woven.

The model has seven modules:

- `Options` and `Collections` (`collections.dfy`): the optional value, and the list operations of Cecil's `Collection<T>` that the weaver relies on.
- `Cecil` (`cecil.dfy`): the object graph. Methods are objects whose instruction and attribute lists are updated in place. Instructions are objects too, because the IL processor finds its anchor by identity. Types, modules and assemblies are values that hold the methods.
- `Weaver` (`weaver.dfy`): the attribute test, the body rewrite (`WeaveBody`) and the weaving of one method (`ProcessMethod`). Each is proved against the predicate `Woven`, which states the new state in closed form.
- `Walk` (`walk.dfy`): the three outer loops (`ProcessType`, `ProcessModule`, `ProcessAssembly`). They are proved against a reference semantics over the list of visited methods: `VisitOutcome` gives the result and `VisitStates` the new states. Lemmas then state what that semantics means. The result is true exactly when some method was marked. A throw stops at the first method that cannot be woven and leaves every later method alone. A second run after a first one changes nothing.
- `Symbols` (`symbols.dfy`): the `.mdb`/`.pdb` companion paths and the choice of symbol providers. The shared reader and writer parameter objects are classes that this choice overwrites.
- `ProjectFilter` (`projectfilter.dfy`): the first loop. It keeps a location when its text, with `\` turned into `/`, starts with the data path minus its last seven characters (`"/Assets"`). It collects every location's directory in any case. This is a plain prefix test: a sibling directory whose name extends the project root's also passes (`UnderRootIsProjectAssembly` holds for any continuation).
- `PostProcessor` (`batch.dfy`): the static constructor.
  - The editor and file system are a `Host` object. It holds the reload-lock count and the list of writes.
  - The files that exist, the assembly `ReadAssembly` yields for each readable path, and the paths `Write` fails on are inputs.
  - The hash set of paths is iterated in an unspecified order, modelled as a nondeterministic choice. `order` records the order taken.
  - The whole batch is specified by `StepsFor`, the list of what became of each path visited, and by `StatesAfter`, the states each assembly's methods end in.

The model follows the code on these points:

- A marked method with an empty body is not skipped. `Instructions[0]` throws `ArgumentOutOfRangeException`.
- A marked method without a body (abstract or extern) makes `Body.GetILProcessor()` throw `NullReferenceException`.
- Each throw propagates out of `ProcessAssembly` to the constructor's single `try`. That ends the whole batch: the remaining assemblies are not processed and `UnlockReloadAssemblies` is never called. The methods woven before the throw stay woven, in memory only.
- `Substring` throws on a data path shorter than seven characters, but only when there is at least one loaded assembly. It also throws on an assembly path shorter than three characters. Both end the batch the same way.

## Model

| member | source | states |
|---|---|---|
| Collections.InsertPairBefore | Assets/Editor/AssemblyPostProcessor.cs:133-134 | two InsertBefore calls on the same anchor put both new instructions, in call order, directly in front of the anchor's first occurrence |
| Cecil.Instruction.Create | Assets/Editor/AssemblyPostProcessor.cs:133-138 | a new instruction with the given opcode and operand |
| Cecil.MethodDefinition.InsertBefore | Assets/Editor/AssemblyPostProcessor.cs:133-138 | the instruction list becomes the old one with the new instruction in front of the anchor's first occurrence; the attributes are unchanged |
| Cecil.MethodDefinition.RemoveCustomAttribute | Assets/Editor/AssemblyPostProcessor.cs:146-149 | removes the first attribute equal to the argument, reports whether there was one, and leaves the instructions unchanged |
| Weaver.LogAttributeFullName | Assets/Editor/AssemblyPostProcessor.cs:126 | the marker test (global-namespace type named LogAttribute) holds exactly when the type's FullName equals "LogAttribute" |
| Weaver.FindLogAttributeFirst | Assets/Editor/AssemblyPostProcessor.cs:124-143 | the position found holds a marker and no earlier attribute is one; none is found exactly when no attribute is a marker |
| Weaver.MarkedIffCount | Assets/Editor/AssemblyPostProcessor.cs:124-126 | no marker is found exactly when the attribute list holds zero markers |
| Weaver.RemoveFirstMarker | Assets/Editor/AssemblyPostProcessor.cs:146-149 | removing the found marker by value removes exactly the attribute at its position, so other attributes keep their order |
| Weaver.RemoveMarkerCount | Assets/Editor/AssemblyPostProcessor.cs:146-149 | removing the first marker leaves exactly one marker fewer |
| Weaver.WovenBodyFromPairs | Assets/Editor/AssemblyPostProcessor.cs:132-138 | the Enter pair in front of the first instruction, then the Exit pair in front of the first occurrence of the original last instruction, give the woven body |
| Weaver.WeaveBody | Assets/Editor/AssemblyPostProcessor.cs:130-138 | for a non-empty body, the new body is the woven form: length n + 4, Enter literal and Log call first, original instructions in order, Exit literal and Log call in front of the last instruction; the attributes are unchanged |
| Weaver.ProcessMethod | Assets/Editor/AssemblyPostProcessor.cs:122-150 | it throws exactly when the method is marked and has no body or an empty one, with NullReferenceException or ArgumentOutOfRangeException respectively, and then the method is unchanged; otherwise it returns whether the method was marked, and the method is woven (body rewritten, first marker removed) if marked and untouched if not |
| Weaver.WovenCount | Assets/Editor/AssemblyPostProcessor.cs:140-149 | a weave removes one marker from a marked method and none from an unmarked one, so the method is unmarked afterwards exactly when it carried at most one marker |
| Weaver.WovenBodyUniqueLast | Assets/Editor/AssemblyPostProcessor.cs:132-138 | when the last instruction occurs once, the woven body is [ldstr Enter, call Log] ++ body[0..n-1) ++ [ldstr Exit, call Log, body[n-1]] |
| Weaver.WovenSingleInstruction | Assets/Editor/AssemblyPostProcessor.cs:132-138 | a one-instruction body becomes Enter pair, Exit pair, then that instruction last |
| Weaver.EnterExitDiffer | Assets/Editor/AssemblyPostProcessor.cs:133-137 | the Enter and Exit literals differ for every type and method name |
| Walk.VisitOutcomeMeaning | Assets/Editor/AssemblyPostProcessor.cs:114-155 | a visit throws exactly when some visited method is marked with no body or an empty one; when it returns, the result is true exactly when some method was marked |
| Walk.VisitStatesMeaning | Assets/Editor/AssemblyPostProcessor.cs:116-152 | when the visit returns, every method was woven; when it throws, it stopped at a method that throws, every method before it was woven, and that method and every later one are unchanged |
| Walk.UnmarkedVisit | Assets/Editor/AssemblyPostProcessor.cs:122-155 | over methods none of which is marked, the visit returns false and leaves every state as it was |
| Walk.RerunIsNoOp | Assets/Editor/AssemblyPostProcessor.cs:112-156 | after a run that returned, when no method carried more than one marker, a second run returns false and changes nothing |
| Walk.VisitMethodAt | Assets/Editor/AssemblyPostProcessor.cs:120-150 | weaving the type's method at k has the effect of visiting its one site, and changes no other method of the type |
| Walk.ProcessType | Assets/Editor/AssemblyPostProcessor.cs:120-151 | visiting the type's methods in order has the reference effect over its sites: result and new states |
| Walk.VisitTypeAt | Assets/Editor/AssemblyPostProcessor.cs:118-152 | one pass of the type loop extends the effect over the module's sites by that type's block; on a throw the whole module's effect is reached |
| Walk.ProcessModule | Assets/Editor/AssemblyPostProcessor.cs:118-152 | visiting the module's top-level types in order has the reference effect over the module's sites |
| Walk.VisitModuleAt | Assets/Editor/AssemblyPostProcessor.cs:116-153 | one pass of the module loop extends the effect over the assembly's sites by that module's block; on a throw the whole assembly's effect is reached |
| Walk.ProcessAssembly | Assets/Editor/AssemblyPostProcessor.cs:112-156 | the weaver has the reference effect over all the assembly's sites: its result is VisitOutcome and the new states satisfy VisitStates |
| Symbols.MdbPath | Assets/Editor/AssemblyPostProcessor.cs:60 | the mdb path is the assembly path followed by ".mdb" |
| Symbols.PdbPath | Assets/Editor/AssemblyPostProcessor.cs:61 | fails exactly for a path under three characters; otherwise it keeps the length and everything but the last three characters, which become "pdb" |
| Symbols.CompanionPaths | Assets/Editor/AssemblyPostProcessor.cs:59-61 | for "name.dll" the companions are "name.pdb" and "name.dll.mdb" |
| Symbols.SymbolSettingsFor | Assets/Editor/AssemblyPostProcessor.cs:64-84 | symbols are read and written together, exactly when a companion exists; a pdb wins over an mdb; the writer is always mdb; a provider is set exactly when its flag is |
| Symbols.ConfigureSymbols | Assets/Editor/AssemblyPostProcessor.cs:64-84 | the shared parameter objects end up holding exactly the settings chosen from the two flags, whatever they held before |
| ProjectFilter.NormalizeSeparators | Assets/Editor/AssemblyPostProcessor.cs:31 | same length; every backslash becomes a slash and every other character stays |
| ProjectFilter.NormalizeSeparatorsIdempotent | Assets/Editor/AssemblyPostProcessor.cs:31 | the result holds no backslash, so normalizing twice is normalizing once |
| ProjectFilter.ProjectRoot | Assets/Editor/AssemblyPostProcessor.cs:31 | fails exactly for a data path under seven characters; otherwise it is the data path without its last seven characters |
| ProjectFilter.ProjectRootOfDataPath | Assets/Editor/AssemblyPostProcessor.cs:31 | the root of root + "/Assets" is root |
| ProjectFilter.UnderRootIsProjectAssembly | Assets/Editor/AssemblyPostProcessor.cs:31 | every location that starts with a backslash-free root is kept, whatever follows the root |
| ProjectFilter.LastSeparator | Assets/Editor/AssemblyPostProcessor.cs:36 | the position found holds a separator and no separator follows it; none is found exactly when the path has none |
| ProjectFilter.DirectoryName | Assets/Editor/AssemblyPostProcessor.cs:36 | a prefix of the path that is empty or followed by a separator, with no separator after that one |
| ProjectFilter.CollectAssemblies | Assets/Editor/AssemblyPostProcessor.cs:28-37 | throws exactly when there is a location and the data path is under seven characters; otherwise the kept paths are exactly the locations in the project and the directories are exactly those of all locations |
| PostProcessor.Host.LockReloadAssemblies | Assets/Editor/AssemblyPostProcessor.cs:19 | the lock count goes up by one; the writes are unchanged |
| PostProcessor.Host.UnlockReloadAssemblies | Assets/Editor/AssemblyPostProcessor.cs:104 | the lock count goes down by one, not below zero; the writes are unchanged |
| PostProcessor.Host.WriteAssembly | Assets/Editor/AssemblyPostProcessor.cs:94 | one write of the path with the writer's symbol settings is appended; the lock count is unchanged |
| PostProcessor.StepsForAt | Assets/Editor/AssemblyPostProcessor.cs:57-101 | the step at i of the batch is the step of the path at i |
| PostProcessor.WritesOfMeaning | Assets/Editor/AssemblyPostProcessor.cs:91-96 | a write is made exactly when some step wrote it back |
| PostProcessor.WrittenIffWoven | Assets/Editor/AssemblyPostProcessor.cs:59-99 | for a path the batch got through: it was readable, it was written back exactly when some method of it was marked, to its own path, with symbols written exactly when its pdb or mdb exists |
| PostProcessor.StepAborted | Assets/Editor/AssemblyPostProcessor.cs:61-94 | a path ends the batch exactly when its pdb path cannot be cut, it cannot be read, some method of it is marked with no body or an empty one, or it was woven and cannot be written |
| PostProcessor.QueueStep | Assets/Editor/AssemblyPostProcessor.cs:57 | taking one more path out of the hash set keeps each path visited at most once and every path either visited or still to come |
| PostProcessor.WrittenIsWoven | Assets/Editor/AssemblyPostProcessor.cs:87-99 | an assembly the batch wrote back holds every method woven from the state it was read in; a skipped assembly holds every method as it was read |
| PostProcessor.WeaveAndWrite | Assets/Editor/AssemblyPostProcessor.cs:88-100 | weaves the assembly read, with the weaver's effect on its methods; a throw aborts, no change skips, a change writes the woven assembly back with the writer's symbol settings unless Write throws; the lock count is unchanged |
| PostProcessor.ProcessPath | Assets/Editor/AssemblyPostProcessor.cs:59-100 | the step is the path's step computed from the assembly read and its methods' states before; once the pdb path is cut, the parameter objects hold the settings chosen for the path and the assembly's methods are in the states the weave leaves them in; before that nothing is touched; the writes grow by that step's write; the lock count is unchanged |
| PostProcessor.ReadAndProcess | Assets/Editor/AssemblyPostProcessor.cs:87-100 | ProcessPath on the assembly read for the path, with the weave's effect on that assembly's methods; every other assembly's methods keep their states |
| PostProcessor.VisitPath | Assets/Editor/AssemblyPostProcessor.cs:57-101 | one pass of the second loop extends the batch's steps and writes by that path's; every assembly visited (pdb path cut) is in the states the weave leaves it in, every other one in the states it started in |
| PostProcessor.WeaveAll | Assets/Editor/AssemblyPostProcessor.cs:57-101 | each queued path is visited at most once, all of them when none aborts; the steps are StepsFor of the paths visited, from the states before; only the last step can abort; the writes are those of the steps; the assemblies' methods end in StatesAfter of the paths visited |
| PostProcessor.Run | Assets/Editor/AssemblyPostProcessor.cs:12-110 | a short data path ends the batch before any path is visited; the paths visited are project assemblies, each once, and all of them when nothing aborts; the steps are StepsFor of those paths; only the last step can abort; the writes are exactly the steps' writes; the assemblies' methods end woven for the paths visited and untouched otherwise (StatesAfter); the lock count ends one higher exactly when something threw, and unchanged otherwise |

## Left out

- Unity editor plumbing is not modelled: `[InitializeOnLoad]`, and the `Debug.Log`/`Debug.LogWarning` messages at lines 16, 90, 93, 95, 99 and 108. The reload lock is a counter on `Host`.
- `AppDomain.CurrentDomain.GetAssemblies()` and `Application.dataPath` are inputs (`locations`, `dataPath`). Exceptions from `Assembly.Location`, such as those of dynamic assemblies, are not modelled.
- `File.Exists` is an input: the set `files` of paths that exist.
- `AssemblyDefinition.ReadAssembly` is an input map from readable paths to the assembly read; a missing path is a read that throws. Reading does not depend on the reader's symbol settings here, and symbol-file formats and providers are only tags.
- `AssemblyDefinition.Write` appends a record of the path and symbol settings to `Host.writes`, and throws for the paths in `unwritable`. The record does not hold the bytes written. What was written is the in-memory assembly: `PostProcessor.Run` states the states its methods end in (`StatesAfter`), and `PostProcessor.WrittenIsWoven` says that a rewritten assembly holds every method woven. Since no two paths share a method and no path is visited twice, nothing changes an assembly's methods after it is written.
- `DefaultAssemblyResolver` and `EditorApplication.applicationPath` (lines 40-47, 51) are not modelled. The search directories are computed by `CollectAssemblies` and then not used.
- `ModuleDefinition.Import` is a fixed method reference per module. The change it makes to the module's import table is not modelled.
- `Path.GetDirectoryName` is the cut before the last `/` or `\`. Its handling of roots, trailing separators, normalisation and invalid paths is not modelled. `String.StartsWith` is modelled as an ordinal comparison; the culture-sensitive comparison at line 31 is not modelled.
- A nested type's FullName form is not modelled. The weaver never visits nested types, which the model keeps.
- Each method is listed once in its assembly, and each `ReadAssembly` builds its own object graph. These Cecil invariants are preconditions: `Walk.Distinct` and `PostProcessor.Separate`.
- Weaver.WeaveBody: does not state that the four inserted instructions are new objects, distinct from every instruction of the body. The woven body is stated up to that.
- PostProcessor.Run: `order` lists only the paths visited. When a path aborts the batch, nothing is said about the order in which the hash set would have yielded the rest.
