# Java deobfuscator: the ZKM useless try-catch rule and the run orchestrator

This project models two pieces of a Java bytecode deobfuscator and proves properties of them.

- **The ZKM useless try-catch rule.** Zelix KlassMaster wraps code in try-catch blocks whose handler only rethrows. It does this through a static helper that returns its argument. The rule handles one class at a time:
  - it collects the class's *instant-return* helpers, whose body is exactly the two nodes `ALOAD; ARETURN`;
  - it drops every try-catch block whose handler is followed by `INVOKESTATIC <helper>; ATHROW`;
  - it deletes the helpers that some dropped block referenced;
  - it reports a change when any block went.
- **The run orchestrator.** It:
  - checks the input jar;
  - lays out the classpath;
  - loads each archive entry into the working set, as a class or as a pass-through file;
  - runs the transformer list;
  - chooses the output target;
  - writes every class and file to the output, emptying the working maps as it goes.

Both pieces are imperative in the source, so the model keeps that form:

- `ZelixTransformer.ZelixUselessTryCatchRemover` is a class with the `changed` flag. Its methods edit `Bytecode.ClassWrapper` objects in place.
- `Deobfuscator.Deobfuscator` is a class holding the class map, the file map, the runs made so far and the output entries.
- Every loop is a `while` loop with its invariants.
- Each method is proved against a specification function: `ZelixRule.Rewrite` for one class, `Deobfuscator.Load`/`LoadAll` for loading, and `Deobfuscator.ClassEntries`/`FileEntries`/`DirEntries` for output.
- The properties of those functions are proved as lemmas.

The source relies on the iteration order of the context's maps (their type is not shown), and the model does not fix it. A save loop picks any remaining key. The method returns the order it used, and its contract holds for that order.

Files:

- `wrappers.dfy`: `Option` and `Result`.
- `sequences.dfy`: the elements of a sequence, and "no duplicates".
- `bytecode.dfy`: instructions, method identities (owner, name, descriptor), try-catch blocks, methods, classes, and the mutable `ClassWrapper`.
- `matcher.dfy`: a small closed matcher datatype (opcode, `INVOKESTATIC`, capture, sequence), its evaluator, and the rule's two patterns.
- `zelix_rule.dfy`: the rule as functions of one class's value, with its lemmas.
- `zelix_transformer.dfy`: the rule's in-place passes and the transformer object.
- `zelix_scenario.dfy`: the example class in the rule's own documentation, worked through.
- `deobfuscator.dfy`: the orchestrator's data, specification functions and the `Deobfuscator` class.
- `deobfuscator_properties.dfy`: first-writer-wins, output membership, the fallback finding, and the rule run as a transformer.

Paths below are abbreviated:

- `Zelix.java` is `deobfuscator-transformers/src/main/java/uwu/narumi/deobfuscator/core/other/impl/zkm/ZelixUselessTryCatchRemoverTransformer.java`.
- `Deobfuscator.java` is `deobfuscator-impl/src/main/java/uwu/narumi/deobfuscator/Deobfuscator.java`.

The table cells give the full paths.

## Model

| member | source | states |
|---|---|---|
| Matcher.InstantReturnExceptionMatches | deobfuscator-transformers/src/main/java/uwu/narumi/deobfuscator/core/other/impl/zkm/ZelixUselessTryCatchRemoverTransformer.java:41-45 | The instant-return pattern matches at a position iff the next two nodes exist and are `ALOAD` then `ARETURN`. |
| Matcher.InvokeAndReturnMatches | deobfuscator-transformers/src/main/java/uwu/narumi/deobfuscator/core/other/impl/zkm/ZelixUselessTryCatchRemoverTransformer.java:47-51 | The invoke-and-throw pattern matches iff the node is an `INVOKESTATIC` method call and the next node is `ATHROW`. On a match, the "invocation" capture is the call node itself. |
| Matcher.SequenceFailsFast | deobfuscator-transformers/src/main/java/uwu/narumi/deobfuscator/core/other/impl/zkm/ZelixUselessTryCatchRemoverTransformer.java:41-51 | A sequence pattern fails whenever its first element fails, whatever follows. |
| Bytecode.RefOfIdentity | deobfuscator-transformers/src/main/java/uwu/narumi/deobfuscator/core/other/impl/zkm/ZelixUselessTryCatchRemoverTransformer.java:65 | Two methods have the same identity iff their owners, names and descriptors agree. Their instructions and try-catch blocks play no part. |
| Bytecode.CallTargetIsRefOf | deobfuscator-transformers/src/main/java/uwu/narumi/deobfuscator/core/other/impl/zkm/ZelixUselessTryCatchRemoverTransformer.java:79-82 | A call names a method of a class iff the call's owner, name and descriptor are that class's name and that method's name and descriptor. |
| ZelixRule.InstantReturnShape | deobfuscator-transformers/src/main/java/uwu/narumi/deobfuscator/core/other/impl/zkm/ZelixUselessTryCatchRemoverTransformer.java:63 | A method is an instant-return helper iff it has exactly two nodes, `ALOAD` then `ARETURN`. |
| ZelixRule.CandidatesIff | deobfuscator-transformers/src/main/java/uwu/narumi/deobfuscator/core/other/impl/zkm/ZelixUselessTryCatchRemoverTransformer.java:59-67 | An identity is a candidate iff some method of this class has it and is an instant-return helper. |
| ZelixRule.ForeignHelperNeverRemoves | deobfuscator-transformers/src/main/java/uwu/narumi/deobfuscator/core/other/impl/zkm/ZelixUselessTryCatchRemoverTransformer.java:82 | A handler that calls into another class never makes a block useless, even if that class has a same-named helper. |
| ZelixRule.HandlerTarget | deobfuscator-transformers/src/main/java/uwu/narumi/deobfuscator/core/other/impl/zkm/ZelixUselessTryCatchRemoverTransformer.java:76-79 | A handler has a rethrow target iff the two nodes after it are an `INVOKESTATIC` call and `ATHROW`. The target is the called method's identity. |
| ZelixRule.KeptIff | deobfuscator-transformers/src/main/java/uwu/narumi/deobfuscator/core/other/impl/zkm/ZelixUselessTryCatchRemoverTransformer.java:75-93 | A block survives iff it was there and its handler does not rethrow through a candidate. |
| ZelixRule.KeptConcat | deobfuscator-transformers/src/main/java/uwu/narumi/deobfuscator/core/other/impl/zkm/ZelixUselessTryCatchRemoverTransformer.java:75 | Filtering distributes over concatenation, so the kept blocks stay in their original relative order. |
| ZelixRule.TargetsIff | deobfuscator-transformers/src/main/java/uwu/narumi/deobfuscator/core/other/impl/zkm/ZelixUselessTryCatchRemoverTransformer.java:82-86 | A helper is recorded for a method iff some removed block of it rethrows through that helper. Every recorded helper is a candidate. |
| ZelixRule.AllTargetsIff | deobfuscator-transformers/src/main/java/uwu/narumi/deobfuscator/core/other/impl/zkm/ZelixUselessTryCatchRemoverTransformer.java:72-94 | A helper is recorded for the class iff a useless block of one of its methods rethrows through it. |
| ZelixRule.SurvivingIff | deobfuscator-transformers/src/main/java/uwu/narumi/deobfuscator/core/other/impl/zkm/ZelixUselessTryCatchRemoverTransformer.java:97 | A method survives the final `removeIf` iff it was there and its identity was not recorded. |
| ZelixRule.RewriteMethodsIff | deobfuscator-transformers/src/main/java/uwu/narumi/deobfuscator/core/other/impl/zkm/ZelixUselessTryCatchRemoverTransformer.java:55-98 | The rewritten class holds exactly the stripped forms of the original methods whose identity no removed block referenced. |
| ZelixRule.NonCandidateSurvives | deobfuscator-transformers/src/main/java/uwu/narumi/deobfuscator/core/other/impl/zkm/ZelixUselessTryCatchRemoverTransformer.java:97 | A method that is not an instant-return helper is never deleted. |
| ZelixRule.ReferencedCandidatesDeleted | deobfuscator-transformers/src/main/java/uwu/narumi/deobfuscator/core/other/impl/zkm/ZelixUselessTryCatchRemoverTransformer.java:84-97 | A candidate is deleted iff a removed block referenced it. An unreferenced candidate survives. |
| ZelixRule.ChangedIff | deobfuscator-transformers/src/main/java/uwu/narumi/deobfuscator/core/other/impl/zkm/ZelixUselessTryCatchRemoverTransformer.java:88 | The rule reports a change iff at least one try-catch block of the class is useless. |
| ZelixRule.RewriteKeepsInstructions | deobfuscator-transformers/src/main/java/uwu/narumi/deobfuscator/core/other/impl/zkm/ZelixUselessTryCatchRemoverTransformer.java:75-97 | Class name and path are unchanged. Every surviving method is an original method with the same name, descriptor and instructions; only its blocks may shrink. |
| ZelixRule.KeptWhenNoneUseless | deobfuscator-transformers/src/main/java/uwu/narumi/deobfuscator/core/other/impl/zkm/ZelixUselessTryCatchRemoverTransformer.java:75-93 | With no useless block, `removeIf` keeps every block and records nothing. |
| ZelixRule.AllTargetsWhenNoneUseless | deobfuscator-transformers/src/main/java/uwu/narumi/deobfuscator/core/other/impl/zkm/ZelixUselessTryCatchRemoverTransformer.java:72-94 | If no method records a helper, the class records none. |
| ZelixRule.SurvivingWhenNothingGone | deobfuscator-transformers/src/main/java/uwu/narumi/deobfuscator/core/other/impl/zkm/ZelixUselessTryCatchRemoverTransformer.java:97 | With nothing to remove, the final `removeIf` keeps every method. |
| ZelixRule.RewriteIdempotent | deobfuscator-transformers/src/main/java/uwu/narumi/deobfuscator/core/other/impl/zkm/ZelixUselessTryCatchRemoverTransformer.java:54-98 | A second application finds nothing useless, reports no change and leaves the class as the first left it. |
| ZelixScenario.RethrowThroughHelperRemoved | deobfuscator-transformers/src/main/java/uwu/narumi/deobfuscator/core/other/impl/zkm/ZelixUselessTryCatchRemoverTransformer.java:25-37 | For the documented shape (`throw PacketEvents.a(e)` with `a` returning its argument), the block goes, the helper is deleted and a change is reported. |
| ZelixScenario.CallWithoutThrowKept | deobfuscator-transformers/src/main/java/uwu/narumi/deobfuscator/core/other/impl/zkm/ZelixUselessTryCatchRemoverTransformer.java:47-51 | If the handler calls the helper but does not then throw, the class is unchanged and no change is reported. |
| ZelixTransformer.CollectInstantReturns | deobfuscator-transformers/src/main/java/uwu/narumi/deobfuscator/core/other/impl/zkm/ZelixUselessTryCatchRemoverTransformer.java:56-67 | The first pass's list is the class's candidates in method order. |
| ZelixTransformer.RemoveUselessBlocks | deobfuscator-transformers/src/main/java/uwu/narumi/deobfuscator/core/other/impl/zkm/ZelixUselessTryCatchRemoverTransformer.java:75-93 | One method's `removeIf`: the blocks kept are `Kept`; `toRemove` only grows, gains exactly this method's targets and keeps no duplicates; the result is true iff a block went. |
| ZelixTransformer.RemoveMethods | deobfuscator-transformers/src/main/java/uwu/narumi/deobfuscator/core/other/impl/zkm/ZelixUselessTryCatchRemoverTransformer.java:97 | The surviving methods are those whose identity is not in `toRemove`, in order. |
| ZelixTransformer.ZelixUselessTryCatchRemover.StripUselessBlocks | deobfuscator-transformers/src/main/java/uwu/narumi/deobfuscator/core/other/impl/zkm/ZelixUselessTryCatchRemoverTransformer.java:69-94 | Every method loses exactly its useless blocks. `toRemove` lists each referenced helper once. The flag is raised iff some block went. |
| ZelixTransformer.ZelixUselessTryCatchRemover.TransformClass | deobfuscator-transformers/src/main/java/uwu/narumi/deobfuscator/core/other/impl/zkm/ZelixUselessTryCatchRemoverTransformer.java:55-98 | The class object becomes `Rewrite` of its old value. The change flag is the old flag or `Changed` of the old class. |
| ZelixTransformer.ZelixUselessTryCatchRemover.Transform | deobfuscator-transformers/src/main/java/uwu/narumi/deobfuscator/core/other/impl/zkm/ZelixUselessTryCatchRemoverTransformer.java:54-55 | Each class in scope is rewritten using its own candidates only. The flag is raised iff some class changed. |
| Deobfuscator.ClasspathOrder | deobfuscator-impl/src/main/java/uwu/narumi/deobfuscator/Deobfuscator.java:53-68 | Sources come in this order: libraries in order, then the input jar if set, then the raw classes in order. |
| Deobfuscator.BuildClasspath | deobfuscator-impl/src/main/java/uwu/narumi/deobfuscator/Deobfuscator.java:53-68 | The `addJar`/`addExternalClass` calls are made in `ClasspathOrder`. |
| Deobfuscator.From | deobfuscator-impl/src/main/java/uwu/narumi/deobfuscator/Deobfuscator.java:37-51 | Construction fails with `IllegalArgument("Input jar does not exist")` iff an input jar is set and missing. Otherwise the working set is empty and the classpath is laid out in order. |
| Deobfuscator.Load | deobfuscator-impl/src/main/java/uwu/narumi/deobfuscator/Deobfuscator.java:102-122 | Existing classes and files are never replaced. A decoded class goes in only if its name is absent, and the files are untouched. Anything else, including a decode failure, goes in as a file only if its path is absent, and the classes are untouched. |
| Deobfuscator.Invocations | deobfuscator-impl/src/main/java/uwu/narumi/deobfuscator/Deobfuscator.java:124-129 | A null or empty list gives no runs. Otherwise each supplier runs once, in list order, over all classes. |
| Deobfuscator.OutputTarget | deobfuscator-impl/src/main/java/uwu/narumi/deobfuscator/Deobfuscator.java:134-141 | Output goes to the jar if one is set, else to the directory if one is set. With neither, it fails with `IllegalState`. |
| Deobfuscator.JarClassEntry | deobfuscator-impl/src/main/java/uwu/narumi/deobfuscator/Deobfuscator.java:182-202 | A class gets an entry `name + ".class"` iff it compiles or the classpath has its original bytes. The entry holds the compiled bytes when they exist, else the original bytes. |
| Deobfuscator.JarClassEntryAsWritten | deobfuscator-impl/src/main/java/uwu/narumi/deobfuscator/Deobfuscator.java:192-201 | As the code is written, every class leaves an entry named `name + ".class"`. |
| Deobfuscator.FileEntriesAt | deobfuscator-impl/src/main/java/uwu/narumi/deobfuscator/Deobfuscator.java:207-220 | The i-th file entry is the i-th visited path with its bytes unchanged. |
| Deobfuscator.Deobfuscator.LoadClass | deobfuscator-impl/src/main/java/uwu/narumi/deobfuscator/Deobfuscator.java:102-122 | The working set becomes `Load` of the old one. Class names stay keys. |
| Deobfuscator.Deobfuscator.LoadEntries | deobfuscator-impl/src/main/java/uwu/narumi/deobfuscator/Deobfuscator.java:84 | The jar's entries are loaded one by one, in archive order. |
| Deobfuscator.Deobfuscator.LoadExternalClasses | deobfuscator-impl/src/main/java/uwu/narumi/deobfuscator/Deobfuscator.java:88-99 | Each raw class whose file can be read is loaded in order. An unreadable one is skipped. |
| Deobfuscator.Deobfuscator.LoadInput | deobfuscator-impl/src/main/java/uwu/narumi/deobfuscator/Deobfuscator.java:80-100 | The working set becomes `LoadAll` over the jar's entries (when a jar is set), then the readable raw classes. |
| Deobfuscator.Deobfuscator.Transform | deobfuscator-impl/src/main/java/uwu/narumi/deobfuscator/Deobfuscator.java:124-129 | The runs appended are exactly `Invocations`. The working set is their composed effect. The output is untouched. |
| Deobfuscator.Deobfuscator.SaveOutput | deobfuscator-impl/src/main/java/uwu/narumi/deobfuscator/Deobfuscator.java:134-142 | The outcome is `OutputTarget`. On failure nothing changes. Jar output writes all classes then all files. Directory output writes the compiled classes only. |
| Deobfuscator.Deobfuscator.SaveToJar | deobfuscator-impl/src/main/java/uwu/narumi/deobfuscator/Deobfuscator.java:164-227 | Every class, then every file, is visited exactly once. The output gains their entries. Both maps end empty. |
| Deobfuscator.Deobfuscator.SaveClassesToJar | deobfuscator-impl/src/main/java/uwu/narumi/deobfuscator/Deobfuscator.java:179-205 | Each class is visited once. Its compiled or fallback entry is appended, and it is removed whether or not anything was written. |
| Deobfuscator.Deobfuscator.SaveClassToJar | deobfuscator-impl/src/main/java/uwu/narumi/deobfuscator/Deobfuscator.java:181-204 | One turn of the class loop appends `JarClassEntry` of the class and then removes it by name. |
| Deobfuscator.Deobfuscator.SaveFilesToJar | deobfuscator-impl/src/main/java/uwu/narumi/deobfuscator/Deobfuscator.java:207-220 | Each file is visited once and written under its path with its bytes, then removed. The class map is untouched. |
| Deobfuscator.Deobfuscator.SaveFileToJar | deobfuscator-impl/src/main/java/uwu/narumi/deobfuscator/Deobfuscator.java:210-219 | One turn of the file loop appends the file's entry and then removes it. |
| Deobfuscator.Deobfuscator.SaveClassesToDir | deobfuscator-impl/src/main/java/uwu/narumi/deobfuscator/Deobfuscator.java:144-162 | Each class is visited once and written at its path in the jar when it compiles. It is removed either way. The files are neither written nor removed. |
| Deobfuscator.Deobfuscator.SaveClassToDir | deobfuscator-impl/src/main/java/uwu/narumi/deobfuscator/Deobfuscator.java:149-160 | One turn of the directory loop writes the compiled bytes or nothing, then removes the class. |
| Deobfuscator.Deobfuscator.Start | deobfuscator-impl/src/main/java/uwu/narumi/deobfuscator/Deobfuscator.java:70-74 | A run loads, runs the configured transformers, then saves. The output is that of the transformed working set for the chosen target. |
| DeobfuscatorProperties.LoadAllKeepsExisting | deobfuscator-impl/src/main/java/uwu/narumi/deobfuscator/Deobfuscator.java:112-120 | No sequence of loads replaces a class or a file already present. |
| DeobfuscatorProperties.FirstLoadedClassWins | deobfuscator-impl/src/main/java/uwu/narumi/deobfuscator/Deobfuscator.java:112 | Among entries that decode to classes of one name, the first one loaded is the one kept. |
| DeobfuscatorProperties.NameAbsentUntil | deobfuscator-impl/src/main/java/uwu/narumi/deobfuscator/Deobfuscator.java:112 | A class name that no loaded entry decodes to stays absent. |
| DeobfuscatorProperties.FirstStoredFileWins | deobfuscator-impl/src/main/java/uwu/narumi/deobfuscator/Deobfuscator.java:113-120 | Among non-class entries under one path, the first one stored is the one kept. |
| DeobfuscatorProperties.PathAbsentUntil | deobfuscator-impl/src/main/java/uwu/narumi/deobfuscator/Deobfuscator.java:113-120 | A path that no non-class entry carries stays absent from the files. |
| DeobfuscatorProperties.ClassEntriesIff | deobfuscator-impl/src/main/java/uwu/narumi/deobfuscator/Deobfuscator.java:179-205 | The jar's class entries are exactly the `JarClassEntry` values of the visited classes. |
| DeobfuscatorProperties.DirEntriesIff | deobfuscator-impl/src/main/java/uwu/narumi/deobfuscator/Deobfuscator.java:147-160 | The directory's entries are exactly the compiled bytes of the visited classes that compile, each at the class's path in the jar. |
| DeobfuscatorProperties.MissingOriginalLeavesEmptyEntry | deobfuscator-impl/src/main/java/uwu/narumi/deobfuscator/Deobfuscator.java:192-201 | For a class that neither compiles nor has original bytes, the corrected model writes nothing. The code as written leaves an empty entry. |
| DeobfuscatorProperties.AsWrittenAgreesWhenBytesExist | deobfuscator-impl/src/main/java/uwu/narumi/deobfuscator/Deobfuscator.java:182-201 | Where compiled or original bytes exist, the code as written and the corrected model write the same entry. |
| DeobfuscatorProperties.ZelixPass | deobfuscator-impl/src/main/java/uwu/narumi/deobfuscator/Deobfuscator.java:128 | One run of the rule through the orchestrator rewrites every class under the same key and leaves the files alone. |
| DeobfuscatorProperties.ZelixPassKeepsNames | deobfuscator-impl/src/main/java/uwu/narumi/deobfuscator/Deobfuscator.java:128 | The rule keeps each class under its own name, so it meets what `Transform` asks of a transformer. |
| DeobfuscatorProperties.ZelixPassTwiceIsOnce | deobfuscator-impl/src/main/java/uwu/narumi/deobfuscator/Deobfuscator.java:128 | A supplier list naming the rule twice in a row leaves the same working set as naming it once. |

## Left out

- Zip, file and directory I/O is not modelled:
  - the jar's entries arrive as a sequence of (path, bytes) pairs;
  - reading a raw class file is a parameter `readFile` that may fail;
  - the existing paths are a parameter set;
  - output is an appended sequence of (entry name, bytes).
- `Files.createDirectories` failures, the `RuntimeException` they cause, zip stream failures and duplicate-entry errors are not modelled.
- Logging, `printStacktraces` and the "output file already exists" warning are left out. They do not change state.
- `classReaderFlags` and `classWriterFlags` are left out. They only reach the codec.
- The bytecode codec (`ClassHelper.isClass`, `ClassHelper.loadClass`, `compileToBytes`) is an abstract `Codec` of partial functions. An exception in it is a `None` result.
- Compilation (`compileToBytes(context)`) is modelled as a function of the class alone, independent of the context, whose class map shrinks as the save loops remove classes.
- `Classpath.addJar`/`addExternalClass` internals are left out. The model records the call order; the name-to-bytes table they build is a parameter `resolve`.
- `Transformer.transform`, `Context.classes(scope)` and other framework code are abstract. A transformer run is a function `run` on the working set.
- Deobfuscator.Deobfuscator.Transform: requires that `run` keeps every class under its own name (`KeepsNames`). The source relies on the framework for this and does not check it.
- Removing from the context's map (its type is not shown) inside its own `forEach` is modelled as visiting each key once in some order and removing it after it is handled. Whether the concrete map type allows this, or instead throws `ConcurrentModificationException` after the first removal, is not modelled.
- The matcher library is not part of this model. `Matcher.Eval` covers only the three shapes the rule uses.
- How the matcher library treats label, line-number and frame pseudo-nodes is not modelled. Instructions are an abstract node sequence in which every node counts toward the size, and a handler index names a node.
- A handler whose next nodes run past the end of the method simply does not match.
- Framed method contexts and frame analysis are left out. The rule uses only the frameless context.
- `Context` and `getContext` are left out. Only the class map, the file map and the classpath's table are modelled.
- Deobfuscator.Deobfuscator.SaveClassToJar: follows the corrected policy `JarClassEntry` and appends nothing for a class that neither compiles nor has original bytes. The code as written leaves an empty `name + ".class"` entry; `JarClassEntryAsWritten` and `MissingOriginalLeavesEmptyEntry` model that.
- Deobfuscator.Deobfuscator.SaveClassesToJar: appends no entry for a class that neither compiles nor has original bytes, where the code leaves an empty `name + ".class"` entry, because each turn is `SaveClassToJar`.
- Deobfuscator.Deobfuscator.SaveToJar: appends no entry for a class that neither compiles nor has original bytes, where the code leaves an empty one, because its class loop is `SaveClassesToJar`.
- Deobfuscator.Deobfuscator.SaveOutput: on jar output, appends no entry for a class that neither compiles nor has original bytes, where the code leaves an empty one, because it calls `SaveToJar`.
- Deobfuscator.Deobfuscator.Start: requires that `run` keeps every class under its own name (`KeepsNames`), as `Transform` does; and on jar output it appends no entry for a class that neither compiles nor has original bytes, where the code leaves an empty one, because it calls `SaveOutput`.
- Class bytes are `seq<bv8>` values. Nothing inside a class file is parsed.

## Findings

| source | as written | input that shows it | evidently intended | confidence | as-written member | corrected member |
|---|---|---|---|---|---|---|
| deobfuscator-impl/src/main/java/uwu/narumi/deobfuscator/Deobfuscator.java:192-201 | The fallback opens the entry `name + ".class"` with `putNextEntry` before it writes the classpath's bytes. When the class has no original bytes, `write(null)` throws after the entry is already open, and the error is only logged. | A class whose `compileToBytes` throws and whose name the classpath does not hold, such as a class created by a transformer. | A class that neither compiles nor has original bytes is dropped from the output. This is the "otherwise dropped" policy. | medium, not executed | Deobfuscator.JarClassEntryAsWritten, shown by DeobfuscatorProperties.MissingOriginalLeavesEmptyEntry | Deobfuscator.JarClassEntry, used by Deobfuscator.ClassEntries and Deobfuscator.Deobfuscator.SaveClassToJar, with DeobfuscatorProperties.ClassEntriesIff |

In one place the model departs from the code on purpose. When a class neither compiles nor has original bytes, the jar loop writes nothing for it, where the code leaves an empty entry. The row above records this. Everywhere else, where the behaviour described for the program and the code disagree, the model follows the code:

- Directory output (`saveClassesToDir`) writes only the classes that compile. It has no fallback to original bytes. It neither writes nor removes the pass-through files.
- Jar output uses the original-bytes fallback.
