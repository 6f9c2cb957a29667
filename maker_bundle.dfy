/**
  The class scaffolder the builder drives (Symfony MakerBundle's `Generator`),
  seen only through what the builder uses: it renders a template into a pending
  source unit addressed by a target path, hands back and overwrites the pending
  text, and flushes every pending unit to storage. Template rendering and the
  mapping from class name to file path belong to the library; they are the
  constants `render` and `locate` of a generator. Every call is logged, so that
  the order of calls the builder makes can be stated.
 */
module MakerBundle {
  import opened Php

  /** `render(templateName, className, variables)`: the text a template renders to. */
  type Renderer = (string, string, map<string, Value>) -> string

  /** `locate(className)`: the target path the generator assigns to a class. */
  type Locator = string -> string

  /** One call made on the generator, with its arguments (and, for generateClass, its result). */
  datatype Call =
    | GenerateClassCall(className: string, templateName: string, variables: map<string, Value>, targetPath: string)
    | DumpFileCall(targetPath: string, contents: string)
    | WriteChangesCall

  /** What a generator holds: pending texts by path, flushed files by path, and its call log. */
  datatype Snapshot = Snapshot(pending: map<string, string>, written: map<string, string>, log: seq<Call>)

  /** The state after `generateClass`: the rendered template is pending at the class's path. */
  function AfterGenerateClass(st: Snapshot, className: string, templateName: string,
                              variables: map<string, Value>, targetPath: string, text: string): (r: Snapshot)
    ensures r.pending.Keys == st.pending.Keys + {targetPath}
    ensures r.pending[targetPath] == text && r.written == st.written
    ensures forall p :: p in st.pending && p != targetPath ==> r.pending[p] == st.pending[p]
    ensures |r.log| == |st.log| + 1 && r.log[..|st.log|] == st.log && r.log[|st.log|] == GenerateClassCall(className, templateName, variables, targetPath)
  {
    Snapshot(st.pending[targetPath := text], st.written,
             st.log + [GenerateClassCall(className, templateName, variables, targetPath)])
  }

  /** The state after `dumpFile`: the pending text at the path is replaced. */
  function AfterDumpFile(st: Snapshot, targetPath: string, contents: string): (r: Snapshot)
    ensures r.pending.Keys == st.pending.Keys + {targetPath}
    ensures r.pending[targetPath] == contents && r.written == st.written
    ensures forall p :: p in st.pending && p != targetPath ==> r.pending[p] == st.pending[p]
    ensures |r.log| == |st.log| + 1 && r.log[..|st.log|] == st.log && r.log[|st.log|] == DumpFileCall(targetPath, contents)
  {
    Snapshot(st.pending[targetPath := contents], st.written, st.log + [DumpFileCall(targetPath, contents)])
  }

  /** The state after `writeChanges`: every pending unit is stored and nothing is pending. */
  function AfterWriteChanges(st: Snapshot): (r: Snapshot)
    ensures r.pending == map[]
    ensures r.written.Keys == st.written.Keys + st.pending.Keys
    ensures forall p :: p in st.pending ==> r.written[p] == st.pending[p]
    ensures forall p :: p in st.written && p !in st.pending ==> r.written[p] == st.written[p]
    ensures |r.log| == |st.log| + 1 && r.log[..|st.log|] == st.log && r.log[|st.log|] == WriteChangesCall
  {
    Snapshot(map[], st.written + st.pending, st.log + [WriteChangesCall])
  }

  /** Dumping onto a path again replaces the text there and logs one more call. */
  lemma DumpFileOverwrites(st: Snapshot, path: string, before: string, after: string, calls: seq<Call>)
    ensures AfterDumpFile(Snapshot(st.pending[path := before], st.written, st.log + calls), path, after)
         == Snapshot(st.pending[path := after], st.written, st.log + (calls + [DumpFileCall(path, after)]))
  {
    assert st.pending[path := before][path := after] == st.pending[path := after];
    assert st.log + calls + [DumpFileCall(path, after)] == st.log + (calls + [DumpFileCall(path, after)]);
  }

  /**
    Generating a class, overwriting its pending text, generating a second class
    and flushing: nothing stays pending, the stored files gain both texts, and
    the log gains the calls in that order.
   */
  lemma SnapshotSteps(st: Snapshot, afterEntity: Snapshot, afterFields: Snapshot, final: Snapshot,
                      e: string, r: string, rendered: string, entityText: string, repositoryText: string,
                      first: Call, second: Call, dumps: seq<Call>, files: map<string, string>)
    requires afterEntity == Snapshot(st.pending[e := rendered], st.written, st.log + [first])
    requires afterFields.pending == afterEntity.pending[e := entityText]
    requires afterFields.written == afterEntity.written
    requires afterFields.log == afterEntity.log + dumps
    requires final == AfterWriteChanges(Snapshot(afterFields.pending[r := repositoryText], afterFields.written,
                                                 afterFields.log + [second]))
    requires files == map[e := entityText][r := repositoryText]
    ensures final == Snapshot(map[], st.written + st.pending + files, st.log + ([first] + dumps + [second, WriteChangesCall]))
  {
    MapSteps(st.written, st.pending, e, r, rendered, entityText, repositoryText, files);
    calc {
      final.log;
      afterFields.log + [second] + [WriteChangesCall];
      st.log + [first] + dumps + [second] + [WriteChangesCall];
      st.log + ([first] + dumps + [second, WriteChangesCall]);
    }
  }

  /** Overwriting a path twice and then flushing keeps only the last text at that path. */
  lemma MapSteps(written: map<string, string>, pending: map<string, string>, e: string, r: string,
                 rendered: string, entityText: string, repositoryText: string, files: map<string, string>)
    requires files == map[e := entityText][r := repositoryText]
    ensures written + pending[e := rendered][e := entityText][r := repositoryText] == written + pending + files
  {
    var lhs := written + pending[e := rendered][e := entityText][r := repositoryText];
    var rhs := written + pending + files;
    assert lhs.Keys == rhs.Keys;
    forall p | p in lhs
      ensures lhs[p] == rhs[p]
    {
    }
  }

  class Generator {
    const render: Renderer
    const locate: Locator
    var pending: map<string, string>
    var written: map<string, string>
    var log: seq<Call>

    function State(): Snapshot
      reads this
    {
      Snapshot(pending, written, log)
    }

    constructor (render: Renderer, locate: Locator)
      ensures this.render == render && this.locate == locate
      ensures State() == Snapshot(map[], map[], [])
    {
      this.render := render;
      this.locate := locate;
      pending, written, log := map[], map[], [];
    }

    /** `generateClass($className, $templateName, $variables)`: renders the template into a pending unit. */
    method GenerateClass(className: string, templateName: string, variables: map<string, Value>)
      returns (targetPath: string)
      modifies this
      ensures targetPath == locate(className)
      ensures State() == AfterGenerateClass(old(State()), className, templateName, variables,
                                            targetPath, render(templateName, className, variables))
    {
      targetPath := locate(className);
      pending := pending[targetPath := render(templateName, className, variables)];
      log := log + [GenerateClassCall(className, templateName, variables, targetPath)];
    }

    /** `getFileContentsForPendingOperation($targetPath)`: the pending text (the library throws when nothing is pending). */
    function GetFileContentsForPendingOperation(targetPath: string): string
      reads this
      requires targetPath in pending
    {
      pending[targetPath]
    }

    /** `dumpFile($targetPath, $contents)`: replaces the pending text at the path. */
    method DumpFile(targetPath: string, contents: string)
      modifies this
      ensures State() == AfterDumpFile(old(State()), targetPath, contents)
    {
      pending := pending[targetPath := contents];
      log := log + [DumpFileCall(targetPath, contents)];
    }

    /** `writeChanges()`: stores every pending unit and empties the pending set. */
    method WriteChanges()
      modifies this
      ensures State() == AfterWriteChanges(old(State()))
    {
      written := written + pending;
      pending := map[];
      log := log + [WriteChangesCall];
    }
  }
}
