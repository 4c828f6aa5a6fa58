/** The run orchestrator: construction checks, classpath order, loading input
    entries into the working set, running the transformer list, choosing the
    output target and saving. Archive and file I/O, the bytecode codec and the
    transformers' own work are parameters. */
module Deobfuscator {
  import opened Wrappers
  import opened Bytecode
  import opened Sequences

  type Bytes = seq<bv8>

  /** A raw class supplied outside the input jar: where it is on disk and where
      it belongs inside the jar. */
  datatype ExternalClass = ExternalClass(path: string, pathInJar: string)

  /** A supplier of a fresh transformer instance, named by the transformer it creates. */
  datatype TransformerSupplier = TransformerSupplier(id: string)

  /** `DeobfuscatorOptions`, as far as the orchestrator reads it. `transformers`
      is `None` for a null list. */
  datatype Options = Options(
    inputJar: Option<string>,
    outputJar: Option<string>,
    outputDir: Option<string>,
    libraries: seq<string>,
    classes: seq<ExternalClass>,
    transformers: Option<seq<TransformerSupplier>>)

  datatype Error = IllegalArgument(message: string) | IllegalState(message: string)

  /** One `Classpath.addJar` or `Classpath.addExternalClass` call. */
  datatype Source = Jar(path: string) | External(cls: ExternalClass)

  /** The classpath: the sources added, in order, and the original bytes of every
      class they define (the table `addJar` and `addExternalClass` build). */
  datatype Classpath = Classpath(sources: seq<Source>, classes: map<string, Bytes>)

  /** The bytecode codec. `isClass` and `loadClass` give `None` where the source's
      call throws; `compile` (`compileToBytes`) gives `None` when serialization fails. */
  datatype Codec = Codec(
    isClass: Bytes -> Option<bool>,
    loadClass: (string, Bytes) -> Option<ClassNode>,
    compile: ClassNode -> Option<Bytes>)

  /** The context's two working maps: classes by name, pass-through files by path. */
  datatype WorkingSet = WorkingSet(classes: map<string, ClassNode>, files: map<string, Bytes>)

  /** The scope a run is given. The orchestrator always passes a null scope,
      which means every class. */
  datatype Scope = AllClasses

  /** A transformer run as `Transformer.transform(supplier, scope, context)` makes it. */
  datatype Invocation = Invocation(supplier: TransformerSupplier, scope: Scope)

  datatype Target = JarTarget(path: string) | DirTarget(path: string)

  /** One entry written to the output: its name in the jar (or path under the
      output directory) and its bytes. */
  datatype Entry = Entry(name: string, data: Bytes)


  /** `s` lists every key of `keys` exactly once: a map's iteration order. */
  predicate IsEnumeration<T(==)>(s: seq<T>, keys: set<T>) { NoDuplicates(s) && Elements(s) == keys }

  /** Every class is filed under its own name. */
  predicate KeysAreNames(classes: map<string, ClassNode>) {
    forall k :: k in classes ==> classes[k].name == k
  }

  // ---------------------------------------------------------------------------
  // Construction
  // ---------------------------------------------------------------------------

  /** `buildClasspath`'s order: libraries, then the input jar, then raw classes. */
  function ClasspathOrder(options: Options): (r: seq<Source>)
    ensures var libs := |options.libraries|;
            var input := if options.inputJar.Some? then 1 else 0;
            && |r| == libs + input + |options.classes|
            && (forall i :: 0 <= i < libs ==> r[i] == Jar(options.libraries[i]))
            && (options.inputJar.Some? ==> r[libs] == Jar(options.inputJar.value))
            && (forall i :: 0 <= i < |options.classes| ==> r[libs + input + i] == External(options.classes[i]))
  {
    seq(|options.libraries|, i requires 0 <= i < |options.libraries| => Jar(options.libraries[i]))
    + (if options.inputJar.Some? then [Jar(options.inputJar.value)] else [])
    + seq(|options.classes|, i requires 0 <= i < |options.classes| => External(options.classes[i]))
  }

  /** `buildClasspath`: the `addJar` / `addExternalClass` calls, in the order made. */
  method BuildClasspath(options: Options) returns (sources: seq<Source>)
    ensures sources == ClasspathOrder(options)
  {
    sources := [];
    var i := 0;
    while i < |options.libraries|
      invariant 0 <= i <= |options.libraries|
      invariant |sources| == i && forall k :: 0 <= k < i ==> sources[k] == Jar(options.libraries[k])
    {
      sources := sources + [Jar(options.libraries[i])];
      i := i + 1;
    }
    if options.inputJar.Some? {
      sources := sources + [Jar(options.inputJar.value)];
    }
    ghost var prefix := sources;
    if options.classes != [] {
      var j := 0;
      while j < |options.classes|
        invariant 0 <= j <= |options.classes|
        invariant |sources| == |prefix| + j && sources[..|prefix|] == prefix
        invariant forall k :: 0 <= k < j ==> sources[|prefix| + k] == External(options.classes[k])
      {
        sources := sources + [External(options.classes[j])];
        j := j + 1;
      }
    }
  }

  /** The constructor: refuses a named input jar that does not exist, then
      builds the classpath. `existing` is the set of paths that exist on disk;
      `resolve` stands for what the `addJar` / `addExternalClass` calls read. */
  method From(options: Options, existing: set<string>, codec: Codec, resolve: seq<Source> -> map<string, Bytes>)
    returns (r: Result<Deobfuscator, Error>)
    ensures r.Err? <==> options.inputJar.Some? && options.inputJar.value !in existing
    ensures r.Err? ==> r.error == IllegalArgument("Input jar does not exist")
    ensures r.Ok? ==> fresh(r.value) && r.value.Valid()
                      && r.value.options == options
                      && r.value.classpath.sources == ClasspathOrder(options)
                      && r.value.classes == map[] && r.value.files == map[]
                      && r.value.invocations == [] && r.value.output == []
  {
    if options.inputJar.Some? && options.inputJar.value !in existing {
      return Err(IllegalArgument("Input jar does not exist"));
    }
    var sources := BuildClasspath(options);
    var d := new Deobfuscator(options, codec, Classpath(sources, resolve(sources)));
    return Ok(d);
  }

  // ---------------------------------------------------------------------------
  // Loading
  // ---------------------------------------------------------------------------

  /** The class a loaded entry decodes to, if it is a class and decoding succeeds. */
  function Decode(codec: Codec, path: string, bytes: Bytes): Option<ClassNode> {
    if codec.isClass(bytes) == Some(true) then codec.loadClass(path, bytes) else None
  }

  /** `loadClass` on the working set: a decoded class goes in under its name unless
      that name is taken; anything else goes in as a file under its path unless
      that path is taken. */
  function Load(ws: WorkingSet, codec: Codec, path: string, bytes: Bytes): (r: WorkingSet)
    ensures forall k :: k in ws.classes ==> k in r.classes && r.classes[k] == ws.classes[k]
    ensures forall p :: p in ws.files ==> p in r.files && r.files[p] == ws.files[p]
    ensures Decode(codec, path, bytes).Some? ==>
              var c := Decode(codec, path, bytes).value;
              r.files == ws.files && r.classes.Keys == ws.classes.Keys + {c.name}
              && (c.name !in ws.classes ==> r.classes[c.name] == c)
    ensures Decode(codec, path, bytes).None? ==>
              r.classes == ws.classes && r.files.Keys == ws.files.Keys + {path}
              && (path !in ws.files ==> r.files[path] == bytes)
    ensures KeysAreNames(ws.classes) ==> KeysAreNames(r.classes)
  {
    match Decode(codec, path, bytes)
    case Some(c) => if c.name in ws.classes then ws else ws.(classes := ws.classes[c.name := c])
    case None => if path in ws.files then ws else ws.(files := ws.files[path := bytes])
  }

  /** Entries loaded one after another. */
  function LoadAll(ws: WorkingSet, codec: Codec, entries: seq<(string, Bytes)>): WorkingSet
    decreases |entries|
  {
    if entries == [] then ws
    else
      var last := entries[|entries| - 1];
      Load(LoadAll(ws, codec, entries[..|entries| - 1]), codec, last.0, last.1)
  }

  /** The raw classes that could be read, as (path in jar, bytes) entries; an
      unreadable one is skipped. `readFile` stands for reading a file from disk. */
  function ExternalEntries(classes: seq<ExternalClass>, readFile: string -> Option<Bytes>): seq<(string, Bytes)>
    decreases |classes|
  {
    if classes == [] then []
    else
      var last := classes[|classes| - 1];
      ExternalEntries(classes[..|classes| - 1], readFile)
        + (match readFile(last.path) case Some(bytes) => [(last.pathInJar, bytes)] case None => [])
  }

  /** `loadInput`'s entries: the input jar's entries (if there is one) in archive
      order, then the readable raw classes. */
  function InputEntries(options: Options, jarEntries: seq<(string, Bytes)>, readFile: string -> Option<Bytes>)
    : seq<(string, Bytes)>
  {
    (if options.inputJar.Some? then jarEntries else []) + ExternalEntries(options.classes, readFile)
  }

  lemma LoadAllSnoc(ws: WorkingSet, codec: Codec, entries: seq<(string, Bytes)>, path: string, bytes: Bytes)
    ensures LoadAll(ws, codec, entries + [(path, bytes)]) == Load(LoadAll(ws, codec, entries), codec, path, bytes)
  {
    assert (entries + [(path, bytes)])[..|entries|] == entries;
  }

  lemma ExternalEntriesSnoc(classes: seq<ExternalClass>, j: nat, readFile: string -> Option<Bytes>)
    requires j < |classes|
    ensures ExternalEntries(classes[..j + 1], readFile)
         == ExternalEntries(classes[..j], readFile)
            + (match readFile(classes[j].path) case Some(bytes) => [(classes[j].pathInJar, bytes)] case None => [])
  {
    assert classes[..j + 1][..j] == classes[..j];
  }

  lemma {:induction false} LoadAllConcat(ws: WorkingSet, codec: Codec, a: seq<(string, Bytes)>, b: seq<(string, Bytes)>)
    ensures LoadAll(ws, codec, a + b) == LoadAll(LoadAll(ws, codec, a), codec, b)
    decreases |b|
  {
    if b == [] {
      assert a + b == a;
    } else {
      var init := b[..|b| - 1];
      LoadAllConcat(ws, codec, a, init);
      assert (a + b)[..|a + b| - 1] == a + init;
    }
  }

  // ---------------------------------------------------------------------------
  // Transformers
  // ---------------------------------------------------------------------------

  /** The transformer runs `transform` makes: none for a null or empty list, else
      one per supplier, in list order, each over all classes. */
  function Invocations(transformers: Option<seq<TransformerSupplier>>): (r: seq<Invocation>)
    ensures transformers.None? ==> r == []
    ensures transformers.Some? ==>
              |r| == |transformers.value|
              && forall i :: 0 <= i < |r| ==> r[i] == Invocation(transformers.value[i], AllClasses)
  {
    if transformers.None? || transformers.value == [] then []
    else seq(|transformers.value|, i requires 0 <= i < |transformers.value| => Invocation(transformers.value[i], AllClasses))
  }

  /** The working set after the given runs, where `run` is what one run does to it. */
  function RunAll(invocations: seq<Invocation>, ws: WorkingSet, run: (Invocation, WorkingSet) -> WorkingSet): WorkingSet
    decreases |invocations|
  {
    if invocations == [] then ws
    else run(invocations[|invocations| - 1], RunAll(invocations[..|invocations| - 1], ws, run))
  }

  /** A transformer that keeps every class filed under its own name. */
  ghost predicate KeepsNames(run: (Invocation, WorkingSet) -> WorkingSet) {
    forall i: Invocation, ws: WorkingSet :: KeysAreNames(ws.classes) ==> KeysAreNames(run(i, ws).classes)
  }

  // ---------------------------------------------------------------------------
  // Output
  // ---------------------------------------------------------------------------

  /** `saveOutput`'s choice: the jar if one is set, else the directory if one is
      set, else `IllegalStateException`. */
  function OutputTarget(options: Options): (r: Result<Target, Error>)
    ensures r.Err? <==> options.outputJar.None? && options.outputDir.None?
    ensures r.Err? ==> r.error.IllegalState?
    ensures options.outputJar.Some? ==> r == Ok(JarTarget(options.outputJar.value))
    ensures options.outputJar.None? && options.outputDir.Some? ==> r == Ok(DirTarget(options.outputDir.value))
  {
    if options.outputJar.Some? then Ok(JarTarget(options.outputJar.value))
    else if options.outputDir.Some? then Ok(DirTarget(options.outputDir.value))
    else Err(IllegalState("No output file or directory provided"))
  }

  /** The jar entry for one class: its compiled bytes, or else the classpath's
      original bytes for its name, or else nothing. */
  function JarClassEntry(c: ClassNode, codec: Codec, originals: map<string, Bytes>): (r: Option<Entry>)
    ensures r.Some? <==> codec.compile(c).Some? || c.name in originals
    ensures r.Some? ==> r.value.name == c.name + ".class"
    ensures codec.compile(c).Some? ==> r.value.data == codec.compile(c).value
    ensures codec.compile(c).None? && c.name in originals ==> r.value.data == originals[c.name]
  {
    match codec.compile(c)
    case Some(data) => Some(Entry(c.name + ".class", data))
    case None => if c.name in originals then Some(Entry(c.name + ".class", originals[c.name])) else None
  }

  /** The jar entry for one class as lines 182-202 of `Deobfuscator.java` produce it:
      with no original bytes, the fallback opens the entry (`putNextEntry`) before
      `write(null)` throws, so an empty entry is left in the jar. */
  function JarClassEntryAsWritten(c: ClassNode, codec: Codec, originals: map<string, Bytes>): (r: Entry)
    ensures r.name == c.name + ".class"
  {
    match codec.compile(c)
    case Some(data) => Entry(c.name + ".class", data)
    case None => if c.name in originals then Entry(c.name + ".class", originals[c.name]) else Entry(c.name + ".class", [])
  }

  /** The class entries, in the order the classes were visited. */
  function ClassEntries(order: seq<string>, classes: map<string, ClassNode>, codec: Codec, originals: map<string, Bytes>)
    : (r: seq<Entry>)
    requires forall k :: k in order ==> k in classes
    decreases |order|
  {
    if order == [] then []
    else
      var init := ClassEntries(order[..|order| - 1], classes, codec, originals);
      match JarClassEntry(classes[order[|order| - 1]], codec, originals)
      case Some(e) => init + [e]
      case None => init
  }

  /** The file entries, in the order the files were visited, bytes unchanged. */
  function FileEntries(order: seq<string>, files: map<string, Bytes>): (r: seq<Entry>)
    requires forall k :: k in order ==> k in files
    ensures |r| == |order|
    decreases |order|
  {
    if order == [] then [] else FileEntries(order[..|order| - 1], files) + [Entry(order[|order| - 1], files[order[|order| - 1]])]
  }

  /** Every file is written once, under its own path, with its bytes unchanged. */
  lemma {:induction false} FileEntriesAt(order: seq<string>, files: map<string, Bytes>, i: nat)
    requires forall k :: k in order ==> k in files
    requires i < |order|
    ensures FileEntries(order, files)[i] == Entry(order[i], files[order[i]])
    decreases |order|
  {
    if i < |order| - 1 {
      FileEntriesAt(order[..|order| - 1], files, i);
    }
  }

  /** The files `saveClassesToDir` writes: each class that compiles, at its path in the jar. */
  function DirEntries(order: seq<string>, classes: map<string, ClassNode>, codec: Codec): seq<Entry>
    requires forall k :: k in order ==> k in classes
    decreases |order|
  {
    if order == [] then []
    else
      var init := DirEntries(order[..|order| - 1], classes, codec);
      var c := classes[order[|order| - 1]];
      match codec.compile(c)
      case Some(data) => init + [Entry(c.pathInJar, data)]
      case None => init
  }

  function EntryList(e: Option<Entry>): seq<Entry> {
    match e case Some(x) => [x] case None => []
  }

  lemma ClassEntriesSnoc(order: seq<string>, k: string, classes: map<string, ClassNode>, codec: Codec, originals: map<string, Bytes>)
    requires forall x :: x in order ==> x in classes
    requires k in classes
    ensures ClassEntries(order + [k], classes, codec, originals)
         == ClassEntries(order, classes, codec, originals) + EntryList(JarClassEntry(classes[k], codec, originals))
  {
    assert (order + [k])[..|order|] == order;
  }

  lemma FileEntriesSnoc(order: seq<string>, k: string, files: map<string, Bytes>)
    requires forall x :: x in order ==> x in files
    requires k in files
    ensures FileEntries(order + [k], files) == FileEntries(order, files) + [Entry(k, files[k])]
  {
    assert (order + [k])[..|order|] == order;
  }

  lemma DirEntriesSnoc(order: seq<string>, k: string, classes: map<string, ClassNode>, codec: Codec)
    requires forall x :: x in order ==> x in classes
    requires k in classes
    ensures DirEntries(order + [k], classes, codec)
         == DirEntries(order, classes, codec)
            + (match codec.compile(classes[k]) case Some(data) => [Entry(classes[k].pathInJar, data)] case None => [])
  {
    assert (order + [k])[..|order|] == order;
  }

  /** A map being emptied key by key: `order` lists the keys visited so far, each
      once, and `remaining` is the original without them. */
  ghost predicate Remaining<V>(original: map<string, V>, order: seq<string>, remaining: map<string, V>) {
    && NoDuplicates(order)
    && (forall x :: x in order ==> x in original)
    && (forall x :: x in remaining <==> x in original && x !in order)
    && (forall x :: x in remaining ==> remaining[x] == original[x])
  }

  lemma VisitStep<V>(original: map<string, V>, order: seq<string>, remaining: map<string, V>, k: string)
    requires Remaining(original, order, remaining) && k in remaining
    ensures Remaining(original, order + [k], remaining - {k})
  {
  }

  /** A map emptied key by key was visited in full. */
  lemma VisitDone<V>(original: map<string, V>, order: seq<string>)
    requires Remaining(original, order, map[])
    ensures IsEnumeration(order, original.Keys)
  {
  }

  /** The invariant of the class loop of `saveToJar`: the classes visited so far
      have been removed and their entries appended to `base`. */
  ghost predicate ClassJarLoop(original: map<string, ClassNode>, codec: Codec, originals: map<string, Bytes>,
                               base: seq<Entry>, order: seq<string>, remaining: map<string, ClassNode>, out: seq<Entry>) {
    Remaining(original, order, remaining) && out == base + ClassEntries(order, original, codec, originals)
  }

  lemma ClassJarLoopStep(original: map<string, ClassNode>, codec: Codec, originals: map<string, Bytes>,
                         base: seq<Entry>, order: seq<string>, remaining: map<string, ClassNode>, out: seq<Entry>, k: string)
    requires ClassJarLoop(original, codec, originals, base, order, remaining, out) && k in remaining
    ensures ClassJarLoop(original, codec, originals, base, order + [k], remaining - {k},
                         out + EntryList(JarClassEntry(remaining[k], codec, originals)))
  {
    ClassEntriesSnoc(order, k, original, codec, originals);
    VisitStep(original, order, remaining, k);
  }

  /** The invariant of the file loop of `saveToJar`. */
  ghost predicate FileJarLoop(original: map<string, Bytes>, base: seq<Entry>, order: seq<string>,
                              remaining: map<string, Bytes>, out: seq<Entry>) {
    Remaining(original, order, remaining) && out == base + FileEntries(order, original)
  }

  lemma FileJarLoopStep(original: map<string, Bytes>, base: seq<Entry>, order: seq<string>,
                        remaining: map<string, Bytes>, out: seq<Entry>, k: string)
    requires FileJarLoop(original, base, order, remaining, out) && k in remaining
    ensures FileJarLoop(original, base, order + [k], remaining - {k}, out + [Entry(k, remaining[k])])
  {
    FileEntriesSnoc(order, k, original);
    VisitStep(original, order, remaining, k);
  }

  /** The invariant of the loop of `saveClassesToDir`. */
  ghost predicate DirLoop(original: map<string, ClassNode>, codec: Codec, base: seq<Entry>, order: seq<string>,
                          remaining: map<string, ClassNode>, out: seq<Entry>) {
    Remaining(original, order, remaining) && out == base + DirEntries(order, original, codec)
  }

  lemma DirLoopStep(original: map<string, ClassNode>, codec: Codec, base: seq<Entry>, order: seq<string>,
                    remaining: map<string, ClassNode>, out: seq<Entry>, k: string)
    requires DirLoop(original, codec, base, order, remaining, out) && k in remaining
    ensures DirLoop(original, codec, base, order + [k], remaining - {k},
                    out + (match codec.compile(remaining[k])
                           case Some(data) => [Entry(remaining[k].pathInJar, data)] case None => []))
  {
    DirEntriesSnoc(order, k, original, codec);
    VisitStep(original, order, remaining, k);
  }

  // ---------------------------------------------------------------------------
  // The orchestrator
  // ---------------------------------------------------------------------------

  class Deobfuscator {
    const options: Options
    const codec: Codec
    const classpath: Classpath
    /** `context.getClasses()`: the working set of classes. */
    var classes: map<string, ClassNode>
    /** `context.getFiles()`: the pass-through files. */
    var files: map<string, Bytes>
    /** The transformer runs made so far. */
    var invocations: seq<Invocation>
    /** The entries written so far, to the jar or under the output directory. */
    var output: seq<Entry>

    predicate Valid()
      reads this
    {
      KeysAreNames(classes)
    }

    function Snapshot(): (ws: WorkingSet)
      reads this
      ensures ws.classes == classes && ws.files == files
    {
      WorkingSet(classes, files)
    }

    constructor (options: Options, codec: Codec, classpath: Classpath)
      ensures Valid()
      ensures this.options == options && this.codec == codec && this.classpath == classpath
      ensures classes == map[] && files == map[] && invocations == [] && output == []
    {
      this.options := options;
      this.codec := codec;
      this.classpath := classpath;
      classes := map[];
      files := map[];
      invocations := [];
      output := [];
    }

    /** `loadClass(pathInJar, bytes)`. */
    method LoadClass(pathInJar: string, bytes: Bytes)
      requires Valid()
      modifies this
      ensures Valid()
      ensures Snapshot() == Load(old(Snapshot()), codec, pathInJar, bytes)
      ensures invocations == old(invocations) && output == old(output)
    {
      var isClass := codec.isClass(bytes);
      if isClass == Some(true) {
        var loaded := codec.loadClass(pathInJar, bytes);
        if loaded.Some? {
          // putIfAbsent(classWrapper.name(), classWrapper)
          if loaded.value.name !in classes {
            classes := classes[loaded.value.name := loaded.value];
          }
          return;
        }
      } else if isClass == Some(false) {
        if pathInJar !in files {
          files := files[pathInJar := bytes];
        }
        return;
      }
      // the catch block: putIfAbsent(pathInJar, bytes)
      if pathInJar !in files {
        files := files[pathInJar := bytes];
      }
    }

    /** `loadInput`: the input jar's entries, when there is an input jar, then each
        raw class whose file can be read. */
    method LoadInput(jarEntries: seq<(string, Bytes)>, readFile: string -> Option<Bytes>)
      requires Valid()
      modifies this
      ensures Valid()
      ensures Snapshot() == LoadAll(old(Snapshot()), codec, InputEntries(options, jarEntries, readFile))
      ensures invocations == old(invocations) && output == old(output)
    {
      ghost var start := Snapshot();
      var loaded: seq<(string, Bytes)> := [];
      if options.inputJar.Some? {
        LoadEntries(jarEntries);
        loaded := jarEntries;
      }
      LoadExternalClasses(readFile);
      LoadAllConcat(start, codec, loaded, ExternalEntries(options.classes, readFile));
    }

    /** The `FileHelper.loadFilesFromZip(inputJar, this::loadClass)` callback, entry by entry. */
    method LoadEntries(entries: seq<(string, Bytes)>)
      requires Valid()
      modifies this
      ensures Valid()
      ensures Snapshot() == LoadAll(old(Snapshot()), codec, entries)
      ensures invocations == old(invocations) && output == old(output)
    {
      var i := 0;
      while i < |entries|
        invariant 0 <= i <= |entries|
        invariant Valid() && Snapshot() == LoadAll(old(Snapshot()), codec, entries[..i])
        invariant invocations == old(invocations) && output == old(output)
      {
        LoadClass(entries[i].0, entries[i].1);
        LoadAllSnoc(old(Snapshot()), codec, entries[..i], entries[i].0, entries[i].1);
        assert entries[..i + 1] == entries[..i] + [entries[i]];
        i := i + 1;
      }
      assert entries[..i] == entries;
    }

    /** The raw-class half of `loadInput`: an unreadable file is skipped. */
    method LoadExternalClasses(readFile: string -> Option<Bytes>)
      requires Valid()
      modifies this
      ensures Valid()
      ensures Snapshot() == LoadAll(old(Snapshot()), codec, ExternalEntries(options.classes, readFile))
      ensures invocations == old(invocations) && output == old(output)
    {
      ghost var start := Snapshot();
      ghost var done: seq<(string, Bytes)> := [];
      var j := 0;
      while j < |options.classes|
        invariant 0 <= j <= |options.classes|
        invariant done == ExternalEntries(options.classes[..j], readFile)
        invariant Valid() && Snapshot() == LoadAll(start, codec, done)
        invariant invocations == old(invocations) && output == old(output)
      {
        var clazz := options.classes[j];
        ExternalEntriesSnoc(options.classes, j, readFile);
        var read := readFile(clazz.path);
        if read.Some? {
          LoadClass(clazz.pathInJar, read.value);
          LoadAllSnoc(start, codec, done, clazz.pathInJar, read.value);
          done := done + [(clazz.pathInJar, read.value)];
        }
        j := j + 1;
      }
      assert options.classes[..j] == options.classes;
    }

    /** `transform(transformers)`: every supplier once, in list order, over all
        classes; nothing for a null or empty list. */
    method Transform(transformers: Option<seq<TransformerSupplier>>, run: (Invocation, WorkingSet) -> WorkingSet)
      requires Valid() && KeepsNames(run)
      modifies this
      ensures Valid()
      ensures invocations == old(invocations) + Invocations(transformers)
      ensures Snapshot() == RunAll(Invocations(transformers), old(Snapshot()), run)
      ensures output == old(output)
    {
      if transformers.None? || transformers.value == [] {
        return;
      }
      var suppliers := transformers.value;
      ghost var runs := Invocations(transformers);
      var i := 0;
      while i < |suppliers|
        invariant 0 <= i <= |suppliers|
        invariant Valid()
        invariant invocations == old(invocations) + runs[..i]
        invariant Snapshot() == RunAll(runs[..i], old(Snapshot()), run)
        invariant output == old(output)
      {
        var invocation := Invocation(suppliers[i], AllClasses);
        var after := run(invocation, Snapshot());
        classes, files := after.classes, after.files;
        invocations := invocations + [invocation];
        assert runs[..i + 1] == runs[..i] + [invocation];
        assert runs[..i + 1][..i] == runs[..i];
        i := i + 1;
      }
      assert runs[..i] == runs;
    }

    /** `saveToJar`: every class, then every file, visited in map order; each is
        removed from its map once handled, whether or not it was written. */
    method SaveToJar() returns (classOrder: seq<string>, fileOrder: seq<string>)
      requires Valid()
      modifies this
      ensures Valid()
      ensures IsEnumeration(classOrder, old(classes).Keys) && IsEnumeration(fileOrder, old(files).Keys)
      ensures output == old(output) + ClassEntries(classOrder, old(classes), codec, classpath.classes)
                                    + FileEntries(fileOrder, old(files))
      ensures classes == map[] && files == map[]
      ensures invocations == old(invocations)
    {
      classOrder := SaveClassesToJar();
      fileOrder := SaveFilesToJar();
    }

    /** The class loop of `saveToJar`: compiled bytes, else the classpath's
        original bytes, else nothing; the class is removed either way. */
    method SaveClassesToJar() returns (classOrder: seq<string>)
      requires Valid()
      modifies this
      ensures Valid()
      ensures IsEnumeration(classOrder, old(classes).Keys)
      ensures output == old(output) + ClassEntries(classOrder, old(classes), codec, classpath.classes)
      ensures classes == map[] && files == old(files) && invocations == old(invocations)
    {
      ghost var original := classes;
      classOrder := [];
      while |classes| > 0
        invariant Valid()
        invariant ClassJarLoop(original, codec, classpath.classes, old(output), classOrder, classes, output)
        invariant files == old(files) && invocations == old(invocations)
        decreases |classes|
      {
        var name :| name in classes;
        SaveClassToJar(name, original, old(output), classOrder);
        classOrder := classOrder + [name];
      }
      VisitDone(original, classOrder);
    }

    /** One turn of the class loop: the compiled bytes, else the classpath's
        original bytes, else nothing; then the class is removed by its name. */
    method SaveClassToJar(name: string, ghost original: map<string, ClassNode>, ghost base: seq<Entry>, ghost order: seq<string>)
      requires Valid() && name in classes
      requires ClassJarLoop(original, codec, classpath.classes, base, order, classes, output)
      modifies this
      ensures Valid() && ClassJarLoop(original, codec, classpath.classes, base, order + [name], classes, output)
      ensures output == old(output) + EntryList(JarClassEntry(old(classes)[name], codec, classpath.classes))
      ensures classes == old(classes) - {name}
      ensures files == old(files) && invocations == old(invocations)
    {
      ClassJarLoopStep(original, codec, classpath.classes, base, order, classes, output, name);
      var classWrapper := classes[name];
      var compiled := codec.compile(classWrapper);
      if compiled.Some? {
        output := output + [Entry(classWrapper.name + ".class", compiled.value)];
      } else if classWrapper.name in classpath.classes {
        // the original bytes as a fallback
        output := output + [Entry(classWrapper.name + ".class", classpath.classes[classWrapper.name])];
      }
      classes := classes - {classWrapper.name};
    }

    /** The file loop of `saveToJar`: each file's bytes under its path, then removed. */
    method SaveFilesToJar() returns (fileOrder: seq<string>)
      requires Valid()
      modifies this
      ensures Valid()
      ensures IsEnumeration(fileOrder, old(files).Keys)
      ensures output == old(output) + FileEntries(fileOrder, old(files))
      ensures files == map[] && classes == old(classes) && invocations == old(invocations)
    {
      ghost var original := files;
      fileOrder := [];
      while |files| > 0
        invariant FileJarLoop(original, old(output), fileOrder, files, output)
        invariant classes == old(classes) && invocations == old(invocations)
        decreases |files|
      {
        var name :| name in files;
        SaveFileToJar(name, original, old(output), fileOrder);
        fileOrder := fileOrder + [name];
      }
      VisitDone(original, fileOrder);
    }

    /** One turn of the file loop: the file's bytes under its path, then removed. */
    method SaveFileToJar(name: string, ghost original: map<string, Bytes>, ghost base: seq<Entry>, ghost order: seq<string>)
      requires name in files && FileJarLoop(original, base, order, files, output)
      modifies this
      ensures FileJarLoop(original, base, order + [name], files, output)
      ensures output == old(output) + [Entry(name, old(files)[name])]
      ensures files == old(files) - {name}
      ensures classes == old(classes) && invocations == old(invocations)
    {
      FileJarLoopStep(original, base, order, files, output, name);
      output := output + [Entry(name, files[name])];
      files := files - {name};
    }

    /** `saveClassesToDir`: every class visited in map order, written at its path in
        the jar when it compiles, and removed either way. Files are not written. */
    method SaveClassesToDir() returns (classOrder: seq<string>)
      requires Valid()
      modifies this
      ensures Valid()
      ensures IsEnumeration(classOrder, old(classes).Keys)
      ensures output == old(output) + DirEntries(classOrder, old(classes), codec)
      ensures classes == map[] && files == old(files) && invocations == old(invocations)
    {
      ghost var original := classes;
      classOrder := [];
      while |classes| > 0
        invariant Valid()
        invariant DirLoop(original, codec, old(output), classOrder, classes, output)
        invariant files == old(files) && invocations == old(invocations)
        decreases |classes|
      {
        var name :| name in classes;
        SaveClassToDir(name, original, old(output), classOrder);
        classOrder := classOrder + [name];
      }
      VisitDone(original, classOrder);
    }

    /** One turn of the directory loop: the compiled bytes at the class's path in
        the jar, or nothing when compiling fails; then the class is removed. */
    method SaveClassToDir(name: string, ghost original: map<string, ClassNode>, ghost base: seq<Entry>, ghost order: seq<string>)
      requires Valid() && name in classes
      requires DirLoop(original, codec, base, order, classes, output)
      modifies this
      ensures Valid() && DirLoop(original, codec, base, order + [name], classes, output)
      ensures output == old(output) + (match codec.compile(old(classes)[name])
                                       case Some(data) => [Entry(old(classes)[name].pathInJar, data)] case None => [])
      ensures classes == old(classes) - {name}
      ensures files == old(files) && invocations == old(invocations)
    {
      DirLoopStep(original, codec, base, order, classes, output, name);
      var classWrapper := classes[name];
      var compiled := codec.compile(classWrapper);
      if compiled.Some? {
        output := output + [Entry(classWrapper.pathInJar, compiled.value)];
      }
      classes := classes - {classWrapper.name};
    }

    /** `saveOutput`: to the jar, else to the directory, else fail. The orders
        are those in which the classes and files were visited. */
    method SaveOutput() returns (outcome: Result<Target, Error>, classOrder: seq<string>, fileOrder: seq<string>)
      requires Valid()
      modifies this
      ensures Valid() && outcome == OutputTarget(options)
      ensures outcome.Err? ==> classes == old(classes) && files == old(files) && output == old(output)
      ensures outcome.Ok? && outcome.value.JarTarget? ==>
                IsEnumeration(classOrder, old(classes).Keys) && IsEnumeration(fileOrder, old(files).Keys)
                && output == old(output) + ClassEntries(classOrder, old(classes), codec, classpath.classes)
                                         + FileEntries(fileOrder, old(files))
                && classes == map[] && files == map[]
      ensures outcome.Ok? && outcome.value.DirTarget? ==>
                IsEnumeration(classOrder, old(classes).Keys) && fileOrder == []
                && output == old(output) + DirEntries(classOrder, old(classes), codec)
                && classes == map[] && files == old(files)
      ensures invocations == old(invocations)
    {
      outcome := OutputTarget(options);
      classOrder, fileOrder := [], [];
      if options.outputJar.Some? {
        classOrder, fileOrder := SaveToJar();
      } else if options.outputDir.Some? {
        classOrder := SaveClassesToDir();
      }
    }

    /** `start`: load, transform with the configured list, save. */
    method Start(jarEntries: seq<(string, Bytes)>, readFile: string -> Option<Bytes>,
                 run: (Invocation, WorkingSet) -> WorkingSet)
      returns (outcome: Result<Target, Error>, classOrder: seq<string>, fileOrder: seq<string>)
      requires Valid() && KeepsNames(run)
      modifies this
      ensures Valid() && outcome == OutputTarget(options)
      ensures invocations == old(invocations) + Invocations(options.transformers)
      ensures var loaded := LoadAll(old(Snapshot()), codec, InputEntries(options, jarEntries, readFile));
              var transformed := RunAll(Invocations(options.transformers), loaded, run);
              && (outcome.Err? ==> Snapshot() == transformed && output == old(output))
              && (outcome.Ok? && outcome.value.JarTarget? ==>
                    IsEnumeration(classOrder, transformed.classes.Keys)
                    && IsEnumeration(fileOrder, transformed.files.Keys)
                    && output == old(output) + ClassEntries(classOrder, transformed.classes, codec, classpath.classes)
                                             + FileEntries(fileOrder, transformed.files)
                    && classes == map[] && files == map[])
              && (outcome.Ok? && outcome.value.DirTarget? ==>
                    IsEnumeration(classOrder, transformed.classes.Keys) && fileOrder == []
                    && output == old(output) + DirEntries(classOrder, transformed.classes, codec)
                    && classes == map[] && files == transformed.files)
    {
      LoadInput(jarEntries, readFile);
      Transform(options.transformers, run);
      outcome, classOrder, fileOrder := SaveOutput();
    }
  }
}
