/** What a run promises about its working set and its output, stated over the
    orchestrator's specification functions. */
module DeobfuscatorProperties {
  import opened Wrappers
  import opened Bytecode
  import opened Deobfuscator
  import ZelixRule

  /** Loading never replaces a class or a file that is already present. */
  lemma {:induction false} LoadAllKeepsExisting(ws: WorkingSet, codec: Codec, entries: seq<(string, Bytes)>)
    ensures var r := LoadAll(ws, codec, entries);
            && (forall k :: k in ws.classes ==> k in r.classes && r.classes[k] == ws.classes[k])
            && (forall p :: p in ws.files ==> p in r.files && r.files[p] == ws.files[p])
    decreases |entries|
  {
    if entries != [] {
      LoadAllKeepsExisting(ws, codec, entries[..|entries| - 1]);
    }
  }

  /** Of several entries decoding to classes of one name, the first one loaded
      is the one the working set keeps. */
  lemma {:induction false} FirstLoadedClassWins(ws: WorkingSet, codec: Codec, entries: seq<(string, Bytes)>, i: nat)
    requires i < |entries|
    requires Decode(codec, entries[i].0, entries[i].1).Some?
    requires Decode(codec, entries[i].0, entries[i].1).value.name !in ws.classes
    requires forall j :: 0 <= j < i && Decode(codec, entries[j].0, entries[j].1).Some? ==>
               Decode(codec, entries[j].0, entries[j].1).value.name != Decode(codec, entries[i].0, entries[i].1).value.name
    ensures var c := Decode(codec, entries[i].0, entries[i].1).value;
            c.name in LoadAll(ws, codec, entries).classes && LoadAll(ws, codec, entries).classes[c.name] == c
    decreases |entries|
  {
    var c := Decode(codec, entries[i].0, entries[i].1).value;
    var init := entries[..|entries| - 1];
    if i == |entries| - 1 {
      NameAbsentUntil(ws, codec, init, c.name);
    } else {
      FirstLoadedClassWins(ws, codec, init, i);
    }
  }

  /** A name no entry decodes to stays absent. */
  lemma {:induction false} NameAbsentUntil(ws: WorkingSet, codec: Codec, entries: seq<(string, Bytes)>, name: string)
    requires name !in ws.classes
    requires forall j :: 0 <= j < |entries| && Decode(codec, entries[j].0, entries[j].1).Some? ==>
               Decode(codec, entries[j].0, entries[j].1).value.name != name
    ensures name !in LoadAll(ws, codec, entries).classes
    decreases |entries|
  {
    if entries != [] {
      NameAbsentUntil(ws, codec, entries[..|entries| - 1], name);
    }
  }

  /** Of several non-class entries under one path, the first one stored is the
      one the working set keeps. */
  lemma {:induction false} FirstStoredFileWins(ws: WorkingSet, codec: Codec, entries: seq<(string, Bytes)>, i: nat)
    requires i < |entries|
    requires Decode(codec, entries[i].0, entries[i].1).None?
    requires entries[i].0 !in ws.files
    requires forall j :: 0 <= j < i && Decode(codec, entries[j].0, entries[j].1).None? ==> entries[j].0 != entries[i].0
    ensures entries[i].0 in LoadAll(ws, codec, entries).files
    ensures LoadAll(ws, codec, entries).files[entries[i].0] == entries[i].1
    decreases |entries|
  {
    var init := entries[..|entries| - 1];
    if i == |entries| - 1 {
      PathAbsentUntil(ws, codec, init, entries[i].0);
    } else {
      FirstStoredFileWins(ws, codec, init, i);
    }
  }

  /** A path no non-class entry carries stays absent from the files. */
  lemma {:induction false} PathAbsentUntil(ws: WorkingSet, codec: Codec, entries: seq<(string, Bytes)>, path: string)
    requires path !in ws.files
    requires forall j :: 0 <= j < |entries| && Decode(codec, entries[j].0, entries[j].1).None? ==> entries[j].0 != path
    ensures path !in LoadAll(ws, codec, entries).files
    decreases |entries|
  {
    if entries != [] {
      PathAbsentUntil(ws, codec, entries[..|entries| - 1], path);
    }
  }

  /** The class entries of a jar are exactly the entries of the visited classes
      that compile or have original bytes. */
  lemma {:induction false} ClassEntriesIff(order: seq<string>, classes: map<string, ClassNode>, codec: Codec,
                                           originals: map<string, Bytes>, e: Entry)
    requires forall k :: k in order ==> k in classes
    ensures e in ClassEntries(order, classes, codec, originals) <==>
              exists i :: 0 <= i < |order| && JarClassEntry(classes[order[i]], codec, originals) == Some(e)
    decreases |order|
  {
    if order != [] {
      var init := order[..|order| - 1];
      ClassEntriesIff(init, classes, codec, originals, e);
      if exists i :: 0 <= i < |init| && JarClassEntry(classes[init[i]], codec, originals) == Some(e) {
        var i :| 0 <= i < |init| && JarClassEntry(classes[init[i]], codec, originals) == Some(e);
        assert order[i] == init[i];
      }
      if exists i :: 0 <= i < |order| && JarClassEntry(classes[order[i]], codec, originals) == Some(e) {
        var i :| 0 <= i < |order| && JarClassEntry(classes[order[i]], codec, originals) == Some(e);
        if i < |init| {
          assert init[i] == order[i];
        }
      }
    }
  }

  /** The directory output holds exactly the compiled bytes of the visited classes
      that compile, each at the class's path in the jar. */
  lemma {:induction false} DirEntriesIff(order: seq<string>, classes: map<string, ClassNode>, codec: Codec, e: Entry)
    requires forall k :: k in order ==> k in classes
    ensures e in DirEntries(order, classes, codec) <==>
              exists i :: 0 <= i < |order| && codec.compile(classes[order[i]]) == Some(e.data)
                                           && e.name == classes[order[i]].pathInJar
    decreases |order|
  {
    if order != [] {
      var init := order[..|order| - 1];
      DirEntriesIff(init, classes, codec, e);
      if exists i :: 0 <= i < |init| && codec.compile(classes[init[i]]) == Some(e.data)
                                     && e.name == classes[init[i]].pathInJar {
        var i :| 0 <= i < |init| && codec.compile(classes[init[i]]) == Some(e.data)
                                 && e.name == classes[init[i]].pathInJar;
        assert order[i] == init[i];
      }
      if exists i :: 0 <= i < |order| && codec.compile(classes[order[i]]) == Some(e.data)
                                      && e.name == classes[order[i]].pathInJar {
        var i :| 0 <= i < |order| && codec.compile(classes[order[i]]) == Some(e.data)
                                  && e.name == classes[order[i]].pathInJar;
        if i < |init| {
          assert init[i] == order[i];
        }
      }
    }
  }

  /** A class that neither compiles nor has original bytes gets no entry in the
      corrected model, while the code as written leaves an empty entry for it. */
  lemma MissingOriginalLeavesEmptyEntry(c: ClassNode, codec: Codec, originals: map<string, Bytes>)
    requires codec.compile(c).None? && c.name !in originals
    ensures JarClassEntry(c, codec, originals).None?
    ensures JarClassEntryAsWritten(c, codec, originals) == Entry(c.name + ".class", [])
  {
  }

  /** Where a class compiles or has original bytes, the code as written and the
      corrected model write the same entry. */
  lemma AsWrittenAgreesWhenBytesExist(c: ClassNode, codec: Codec, originals: map<string, Bytes>)
    requires codec.compile(c).Some? || c.name in originals
    ensures JarClassEntry(c, codec, originals) == Some(JarClassEntryAsWritten(c, codec, originals))
  {
  }

  /** The useless try-catch rule as one transformer run over the working set:
      every class rewritten, the files untouched. This is the working-set view of
      `ZelixTransformer.ZelixUselessTryCatchRemover.Transform`: given wrappers
      holding the working set's classes, that method leaves each wrapper at
      `Rewrite` of its old value, which is the value kept here under its key. */
  function ZelixPass(i: Invocation, ws: WorkingSet): (r: WorkingSet)
    ensures r.files == ws.files && r.classes.Keys == ws.classes.Keys
    ensures forall k :: k in r.classes ==> r.classes[k] == ZelixRule.Rewrite(ws.classes[k])
  {
    ws.(classes := map k | k in ws.classes :: ZelixRule.Rewrite(ws.classes[k]))
  }

  /** The rule keeps every class under its own name, so the orchestrator may run it. */
  lemma ZelixPassKeepsNames()
    ensures KeepsNames(ZelixPass)
  {
    forall i: Invocation, ws: WorkingSet | KeysAreNames(ws.classes)
      ensures KeysAreNames(ZelixPass(i, ws).classes)
    {
      var r := ZelixPass(i, ws);
      forall k | k in r.classes ensures r.classes[k].name == k {
        assert r.classes[k] == ZelixRule.Rewrite(ws.classes[k]);
      }
    }
  }

  /** A supplier list naming the rule twice in a row leaves the same working set
      as naming it once: the second run finds nothing to change. */
  lemma ZelixPassTwiceIsOnce(a: Invocation, b: Invocation, ws: WorkingSet)
    ensures RunAll([a, b], ws, ZelixPass) == RunAll([a], ws, ZelixPass)
  {
    assert [a, b][..1] == [a];
    assert [a][..0] == [];
    var once := ZelixPass(a, ws);
    var twice := ZelixPass(b, once);
    forall k | k in twice.classes ensures twice.classes[k] == once.classes[k] {
      ZelixRule.RewriteIdempotent(ws.classes[k]);
    }
    assert twice.classes == once.classes;
  }
}
