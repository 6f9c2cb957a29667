/**
  The code-generation pipeline of `App\Service\Builder`: a project is walked
  repository by repository and service by service; for each service an entity
  class is rendered, every field description is folded into the entity's
  pending source text, the paired repository class is rendered, and the
  generator flushes everything once.

  The entities the builder walks are read here as values (it never changes
  them). The source editor (MakerBundle's `ClassSourceManipulator`, created
  afresh for every field) is the injected text transform `edit`.
 */
module AppService {
  import opened Php
  import opened MakerBundle

  /** Namespaces of the generated entities and repositories. */
  const BaseNamespace: string := "Aaas\\"
  const EntityNamespace: string := BaseNamespace + "Entity\\"
  const RepositoryNamespace: string := BaseNamespace + "Repository\\"

  /** What the builder reads of a field description through its getters. */
  datatype ServiceField = ServiceField(
    name: string,
    dataType: string,
    isNullable: Option<bool>,
    isUnique: Option<bool>,
    length: Option<int>)

  datatype RepositoryService = RepositoryService(name: string, serviceFields: seq<ServiceField>)

  datatype ProjectRepository = ProjectRepository(services: seq<RepositoryService>)

  datatype Project = Project(repositories: seq<ProjectRepository>)

  /** `addEntityField` on a manipulator over `sourceCode`, then `getSourceCode`: (sourceCode, fieldName, options) to new text. */
  type Editor = (string, string, map<string, Value>) -> string

  /** The two collaborators the builder's behaviour depends on. */
  datatype Collaborators = Collaborators(render: Renderer, locate: Locator, edit: Editor)

  // ---------------------------------------------------------------------------
  // Folding one field into the entity text

  /**
    The options array handed to the source editor for one field. `fieldName`
    and `type` are always there; `nullable` and `unique` are there, with value
    true, only when the getter returns exactly `true` (null and false leave
    them out); `length` is there exactly for the data type "string".
   */
  function FieldOptions(field: ServiceField): (options: map<string, Value>)
    ensures "fieldName" in options && options["fieldName"] == Str(field.name)
    ensures "type" in options && options["type"] == Str(field.dataType)
    ensures "nullable" in options <==> field.isNullable == Some(true)
    ensures "nullable" in options ==> options["nullable"] == Bool(true)
    ensures "unique" in options <==> field.isUnique == Some(true)
    ensures "unique" in options ==> options["unique"] == Bool(true)
    ensures "length" in options <==> field.dataType == "string"
    ensures "length" in options ==> options["length"] == IntOrNull(field.length)
    ensures options.Keys <= {"fieldName", "type", "nullable", "unique", "length"}
  {
    var options := map["fieldName" := Str(field.name), "type" := Str(field.dataType)];
    var options := if field.isNullable == Some(true) then options["nullable" := Bool(true)] else options;
    var options := if field.isUnique == Some(true) then options["unique" := Bool(true)] else options;
    if field.dataType == "string" then options["length" := IntOrNull(field.length)] else options
  }

  /** `buildServiceField`: the editor adds the field, with its options, to the source text. */
  function BuildServiceField(edit: Editor, field: ServiceField, sourceCode: string): string
  {
    edit(sourceCode, field.name, FieldOptions(field))
  }

  /** The text after folding the fields, first to last, into `text`. */
  function FoldFields(edit: Editor, text: string, fields: seq<ServiceField>): string
    decreases |fields|
  {
    if fields == [] then text
    else FoldFields(edit, BuildServiceField(edit, fields[0], text), fields[1..])
  }

  /** Folding one more field applies the editor once more to the running text. */
  lemma {:induction false} FoldFieldsSnoc(edit: Editor, text: string, fields: seq<ServiceField>, field: ServiceField)
    ensures FoldFields(edit, text, fields + [field]) == BuildServiceField(edit, field, FoldFields(edit, text, fields))
    decreases |fields|
  {
    if fields != [] {
      assert (fields + [field])[1..] == fields[1..] + [field];
      FoldFieldsSnoc(edit, BuildServiceField(edit, fields[0], text), fields[1..], field);
    }
  }

  /** The running text after field i is the text after the fields before it, with field i folded in. */
  lemma FoldFieldsPrefix(edit: Editor, text: string, fields: seq<ServiceField>, i: nat)
    requires i < |fields|
    ensures FoldFields(edit, text, fields[..i + 1]) == BuildServiceField(edit, fields[i], FoldFields(edit, text, fields[..i]))
  {
    assert fields[..i + 1] == fields[..i] + [fields[i]];
    FoldFieldsSnoc(edit, text, fields[..i], fields[i]);
  }

  /** Folding a concatenation folds the second part into the result of the first. */
  lemma {:induction false} FoldFieldsAppend(edit: Editor, text: string, a: seq<ServiceField>, b: seq<ServiceField>)
    ensures FoldFields(edit, text, a + b) == FoldFields(edit, FoldFields(edit, text, a), b)
    decreases |a|
  {
    if a == [] {
      assert a + b == b;
    } else {
      assert (a + b)[1..] == a[1..] + b;
      FoldFieldsAppend(edit, BuildServiceField(edit, a[0], text), a[1..], b);
    }
  }

  // ---------------------------------------------------------------------------
  // Class names, templates and template variables

  /** `sprintf('doctrine/%s.tpl.php', ...)`: the template for an entity or a repository. */
  function TemplateName(isRepository: bool): (r: string)
    ensures isRepository ==> r == "doctrine/Repository.tpl.php"
    ensures !isRepository ==> r == "doctrine/Entity.tpl.php"
  {
    "doctrine/" + (if isRepository then "Repository" else "Entity") + ".tpl.php"
  }

  /** The fully-qualified name `buildClass` generates for a service name. */
  function ClassFqcn(name: string, isRepository: bool): string
  {
    if isRepository then RepositoryNamespace + name + "Repository" else EntityNamespace + name
  }

  /** `end(explode('\\', $fqcn))`: the class name without its namespace. */
  function ShortName(fqcn: string): (r: string)
    ensures '\\' !in r
  {
    End(Explode('\\', fqcn))
  }

  /** The short name splits in at least two pieces before capitals, so piece 1 exists. */
  predicate CanDeriveNames(fqcn: string)
  {
    |SplitBeforeUpper(ShortName(fqcn))| >= 2
  }

  /** The variables array `generateClassTargetPath` passes to the template. */
  function ClassVariables(fqcn: string): map<string, Value>
    requires CanDeriveNames(fqcn)
  {
    var className := ShortName(fqcn);
    assert className != "";
    map[
      "api_resource" := Bool(true),
      "entity_class_name" := Str(className),
      "entity_alias" := Str([LcFirst(className)[0]]),
      "repository_full_class_name" := Str(RepositoryNamespace + className + "Repository"),
      "entity_full_class_name" := Str(EntityNamespace + SplitBeforeUpper(className)[1])
    ]
  }

  /** The first word of a name: from its first capital up to the next capital. */
  function FirstWord(s: string): string
    requires HasUpper(s)
  {
    var i := FirstUpper(s, 0);
    assert i < |s| by {
      var j :| 0 <= j < |s| && IsUpper(s[j]);
    }
    s[i..FirstUpper(s, i + 1)]
  }

  /** A service whose entity name can be derived: one that the builder accepts. */
  predicate Buildable(name: string)
  {
    CanDeriveNames(ClassFqcn(name, false))
  }

  /**
    `buildClass`: the entity is `Aaas\Entity\<name>` from `doctrine/Entity.tpl.php`,
    the repository `Aaas\Repository\<name>Repository` from `doctrine/Repository.tpl.php`;
    a name without a backslash is the short name of the entity class.
   */
  lemma BuildClassNames(name: string)
    requires '\\' !in name
    ensures TemplateName(false) == "doctrine/Entity.tpl.php"
    ensures TemplateName(true) == "doctrine/Repository.tpl.php"
    ensures ClassFqcn(name, false) == "Aaas\\Entity\\" + name
    ensures ClassFqcn(name, true) == "Aaas\\Repository\\" + name + "Repository"
    ensures ShortName(ClassFqcn(name, false)) == name
    ensures ShortName(ClassFqcn(name, true)) == name + "Repository"
  {
    LastPieceAfterSeparator('\\', EntityNamespace, name);
    assert '\\' !in name + "Repository";
    assert ClassFqcn(name, true) == RepositoryNamespace + (name + "Repository");
    LastPieceAfterSeparator('\\', RepositoryNamespace, name + "Repository");
  }

  /** Every repository class name can be split: its short name ends in "Repository". */
  lemma {:induction false} RepositoryNamesDerivable(name: string)
    ensures CanDeriveNames(ClassFqcn(name, true))
  {
    var prefix := RepositoryNamespace + name;
    assert ClassFqcn(name, true) == prefix + "Repository";
    ExplodeAppend('\\', prefix, "Repository");
    var short := ShortName(ClassFqcn(name, true));
    var head := End(Explode('\\', prefix));
    assert short == head + "Repository";
    assert IsUpper(short[|head|]);
    SplitHasSecondPiece(short);
  }

  /** For a plain name, the entity can be built exactly when the name holds a capital. */
  lemma EntityNamesDerivable(name: string)
    requires '\\' !in name
    ensures Buildable(name) <==> HasUpper(name)
  {
    BuildClassNames(name);
    SplitHasSecondPiece(name);
  }

  /** The piece the variables use is the first word of the short name. */
  lemma EntityFullClassName(fqcn: string)
    requires CanDeriveNames(fqcn)
    ensures HasUpper(ShortName(fqcn))
    ensures ClassVariables(fqcn)["entity_full_class_name"] == Str(EntityNamespace + FirstWord(ShortName(fqcn)))
  {
    SplitHasSecondPiece(ShortName(fqcn));
    SplitBeforeUpperSecondPiece(ShortName(fqcn));
  }

  /**
    The template variables of an entity class: the short name is the service
    name, the alias its lower-cased first letter, the repository named after it,
    and the "entity" name the first word of the service name.
   */
  lemma EntityClassVariables(name: string)
    requires '\\' !in name && HasUpper(name)
    ensures Buildable(name)
    ensures ClassVariables(ClassFqcn(name, false)) == map[
      "api_resource" := Bool(true),
      "entity_class_name" := Str(name),
      "entity_alias" := Str([LowerChar(name[0])]),
      "repository_full_class_name" := Str(RepositoryNamespace + name + "Repository"),
      "entity_full_class_name" := Str(EntityNamespace + FirstWord(name))]
  {
    EntityNamesDerivable(name);
    BuildClassNames(name);
    EntityFullClassName(ClassFqcn(name, false));
    assert LcFirst(name)[0] == LowerChar(name[0]);
  }

  /**
    The template variables of a repository class: its short name is
    `<name>Repository`, so the repository name it is told is
    `Aaas\Repository\<name>RepositoryRepository`, and the entity it is told
    about is `Aaas\Entity\` followed by the first word of `<name>Repository`.
   */
  lemma RepositoryClassVariables(name: string)
    requires '\\' !in name
    ensures CanDeriveNames(ClassFqcn(name, true)) && HasUpper(name + "Repository")
    ensures ClassVariables(ClassFqcn(name, true)) == map[
      "api_resource" := Bool(true),
      "entity_class_name" := Str(name + "Repository"),
      "entity_alias" := Str([LowerChar((name + "Repository")[0])]),
      "repository_full_class_name" := Str(RepositoryNamespace + name + "RepositoryRepository"),
      "entity_full_class_name" := Str(EntityNamespace + FirstWord(name + "Repository"))]
  {
    RepositoryNamesDerivable(name);
    BuildClassNames(name);
    var short := name + "Repository";
    EntityFullClassName(ClassFqcn(name, true));
    assert LcFirst(short)[0] == LowerChar(short[0]);
    assert RepositoryNamespace + short + "Repository" == RepositoryNamespace + name + "RepositoryRepository";
  }

  /**
    For a name that starts with a capital, the repository template is told the
    same entity as the entity template; that is the entity itself exactly when
    the name holds no further capital ("UserProfile" yields `Aaas\Entity\User`).
   */
  lemma RepositoryEntityName(name: string)
    requires '\\' !in name && |name| > 0 && IsUpper(name[0])
    ensures Buildable(name) && CanDeriveNames(ClassFqcn(name, true))
    ensures ClassVariables(ClassFqcn(name, true))["entity_full_class_name"]
         == ClassVariables(ClassFqcn(name, false))["entity_full_class_name"]
    ensures ClassVariables(ClassFqcn(name, true))["entity_full_class_name"] == Str(ClassFqcn(name, false))
        <==> !HasUpper(name[1..])
  {
    assert HasUpper(name) by { assert IsUpper(name[0]); }
    EntityClassVariables(name);
    RepositoryClassVariables(name);
    var long := name + "Repository";
    assert IsUpper(long[|name|]);
    FirstUpperAppend(name, "Repository", 0);
    var k := FirstUpper(name, 1);
    FirstUpperAppend(name, "Repository", 1);
    assert FirstWord(long) == name[..k] == FirstWord(name);
    if HasUpper(name[1..]) {
      var j :| 0 <= j < |name[1..]| && IsUpper(name[1..][j]);
      assert IsUpper(name[j + 1]);
      assert k < |name|;
      assert |"Aaas\\Entity\\" + FirstWord(name)| < |ClassFqcn(name, false)|;
    } else {
      assert k == |name|;
      assert FirstWord(name) == name;
    }
  }

  // ---------------------------------------------------------------------------
  // What building a service does to the generator

  function EntityPath(env: Collaborators, name: string): string
  {
    env.locate(ClassFqcn(name, false))
  }

  function RepositoryPath(env: Collaborators, name: string): string
  {
    env.locate(ClassFqcn(name, true))
  }

  /** The text a class's template renders to. */
  function RenderedClass(env: Collaborators, name: string, isRepository: bool): string
    requires CanDeriveNames(ClassFqcn(name, isRepository))
  {
    var fqcn := ClassFqcn(name, isRepository);
    env.render(TemplateName(isRepository), fqcn, ClassVariables(fqcn))
  }

  /** The generateClass call `buildClass` makes. */
  function GenerateCall(env: Collaborators, name: string, isRepository: bool): Call
    requires CanDeriveNames(ClassFqcn(name, isRepository))
  {
    var fqcn := ClassFqcn(name, isRepository);
    GenerateClassCall(fqcn, TemplateName(isRepository), ClassVariables(fqcn), env.locate(fqcn))
  }

  /** One dumpFile per field: the k-th carries the text with the first k+1 fields folded in. */
  function DumpCalls(edit: Editor, path: string, text: string, fields: seq<ServiceField>): (calls: seq<Call>)
    ensures |calls| == |fields|
  {
    seq(|fields|, k requires 0 <= k < |fields| => DumpFileCall(path, FoldFields(edit, text, fields[..k + 1])))
  }

  /** The calls `buildService` makes on the generator, in order. */
  function ServiceCalls(env: Collaborators, service: RepositoryService): seq<Call>
    requires Buildable(service.name)
  {
    RepositoryNamesDerivable(service.name);
    [GenerateCall(env, service.name, false)]
    + DumpCalls(env.edit, EntityPath(env, service.name), RenderedClass(env, service.name, false), service.serviceFields)
    + [GenerateCall(env, service.name, true), WriteChangesCall]
  }

  /** The units `buildService` leaves to be flushed: the folded entity and the repository. */
  function ServiceFiles(env: Collaborators, service: RepositoryService): map<string, string>
    requires Buildable(service.name)
  {
    RepositoryNamesDerivable(service.name);
    var entityText := FoldFields(env.edit, RenderedClass(env, service.name, false), service.serviceFields);
    map[EntityPath(env, service.name) := entityText][RepositoryPath(env, service.name) := RenderedClass(env, service.name, true)]
  }

  /** The generator state after building one service. */
  function AfterService(env: Collaborators, st: Snapshot, service: RepositoryService): Snapshot
    requires Buildable(service.name)
  {
    Snapshot(map[], st.written + st.pending + ServiceFiles(env, service), st.log + ServiceCalls(env, service))
  }

  predicate AllBuildable(services: seq<RepositoryService>)
  {
    forall i :: 0 <= i < |services| ==> Buildable(services[i].name)
  }

  predicate ProjectBuildable(repositories: seq<ProjectRepository>)
  {
    forall i :: 0 <= i < |repositories| ==> AllBuildable(repositories[i].services)
  }

  /** The generator state after building the services in order. */
  function AfterServices(env: Collaborators, st: Snapshot, services: seq<RepositoryService>): Snapshot
    requires AllBuildable(services)
    decreases |services|
  {
    if services == [] then st
    else AfterService(env, AfterServices(env, st, services[..|services| - 1]), services[|services| - 1])
  }

  /** The generator state after building the repositories in order. */
  function AfterRepositories(env: Collaborators, st: Snapshot, repositories: seq<ProjectRepository>): Snapshot
    requires ProjectBuildable(repositories)
    decreases |repositories|
  {
    if repositories == [] then st
    else
      var last := repositories[|repositories| - 1];
      AfterServices(env, AfterRepositories(env, st, repositories[..|repositories| - 1]), last.services)
  }

  /** The services of the repositories, in repository order and then service order. */
  function AllServices(repositories: seq<ProjectRepository>): seq<RepositoryService>
    decreases |repositories|
  {
    if repositories == [] then []
    else AllServices(repositories[..|repositories| - 1]) + repositories[|repositories| - 1].services
  }

  /** Number of writeChanges calls in a log. */
  function CountFlushes(log: seq<Call>): nat
    decreases |log|
  {
    if log == [] then 0 else (if log[0] == WriteChangesCall then 1 else 0) + CountFlushes(log[1..])
  }

  lemma {:induction false} CountFlushesAppend(a: seq<Call>, b: seq<Call>)
    ensures CountFlushes(a + b) == CountFlushes(a) + CountFlushes(b)
    decreases |a|
  {
    if a == [] {
      assert a + b == b;
    } else {
      assert (a + b)[1..] == a[1..] + b;
      CountFlushesAppend(a[1..], b);
    }
  }

  lemma {:induction false} DumpCallsFlushNothing(edit: Editor, path: string, text: string, fields: seq<ServiceField>)
    ensures CountFlushes(DumpCalls(edit, path, text, fields)) == 0
    decreases |fields|
  {
    if fields != [] {
      var calls := DumpCalls(edit, path, text, fields);
      var n := |fields| - 1;
      DumpCallsSnoc(edit, path, text, fields, n);
      assert fields[..n + 1] == fields;
      CountFlushesAppend(DumpCalls(edit, path, text, fields[..n]), [calls[n]]);
      DumpCallsFlushNothing(edit, path, text, fields[..n]);
    }
  }

  /**
    The order of the calls for one service: the entity is generated first, then
    one dumpFile per field with the running text on the entity's path, then the
    repository, after every field, then a single writeChanges.
   */
  lemma ServiceCallOrder(env: Collaborators, service: RepositoryService)
    requires Buildable(service.name)
    ensures CanDeriveNames(ClassFqcn(service.name, true))
    ensures var calls := ServiceCalls(env, service);
      var n := |service.serviceFields|;
      var text := RenderedClass(env, service.name, false);
      |calls| == n + 3 &&
      calls[0] == GenerateCall(env, service.name, false) &&
      (forall k :: 1 <= k <= n ==>
         calls[k] == DumpFileCall(EntityPath(env, service.name), FoldFields(env.edit, text, service.serviceFields[..k]))) &&
      calls[n + 1] == GenerateCall(env, service.name, true) &&
      calls[n + 2] == WriteChangesCall &&
      CountFlushes(calls) == 1
  {
    RepositoryNamesDerivable(service.name);
    var text := RenderedClass(env, service.name, false);
    var path := EntityPath(env, service.name);
    var dumps := DumpCalls(env.edit, path, text, service.serviceFields);
    var first, second := GenerateCall(env, service.name, false), GenerateCall(env, service.name, true);
    DumpCallsFlushNothing(env.edit, path, text, service.serviceFields);
    CallsAroundDumps(first, dumps, second);
    var calls := ServiceCalls(env, service);
    assert calls == [first] + dumps + [second, WriteChangesCall];
    forall k | 1 <= k <= |service.serviceFields|
      ensures calls[k] == DumpFileCall(path, FoldFields(env.edit, text, service.serviceFields[..k]))
    {
      assert calls[k] == dumps[k - 1];
    }
  }

  /** One call, then calls without a flush, then a call and a flush: exactly one flush, at the end. */
  lemma CallsAroundDumps(first: Call, dumps: seq<Call>, second: Call)
    requires CountFlushes(dumps) == 0 && first != WriteChangesCall && second != WriteChangesCall
    ensures var calls := [first] + dumps + [second, WriteChangesCall];
      |calls| == |dumps| + 3 && calls[0] == first &&
      (forall k :: 1 <= k <= |dumps| ==> calls[k] == dumps[k - 1]) &&
      calls[|dumps| + 1] == second && calls[|dumps| + 2] == WriteChangesCall &&
      CountFlushes(calls) == 1
  {
    var last := [second, WriteChangesCall];
    CountFlushesAppend([first], dumps);
    CountFlushesAppend([first] + dumps, last);
    assert CountFlushes(last) == 1 by {
      assert last[1..] == [WriteChangesCall];
      assert [WriteChangesCall][1..] == [];
    }
  }

  /**
    When distinct classes get distinct paths, building a service leaves as the
    entity's file the template text with all fields folded in, in order, and as
    the repository's file its template text untouched.
   */
  lemma ServiceFilesContent(env: Collaborators, service: RepositoryService)
    requires Buildable(service.name)
    requires forall a, b :: env.locate(a) == env.locate(b) ==> a == b
    ensures CanDeriveNames(ClassFqcn(service.name, true))
    ensures var files := ServiceFiles(env, service);
      files.Keys == {EntityPath(env, service.name), RepositoryPath(env, service.name)} &&
      files[EntityPath(env, service.name)]
        == FoldFields(env.edit, RenderedClass(env, service.name, false), service.serviceFields) &&
      files[RepositoryPath(env, service.name)] == RenderedClass(env, service.name, true)
  {
    RepositoryNamesDerivable(service.name);
    var e := ClassFqcn(service.name, false);
    var r := ClassFqcn(service.name, true);
    assert e[5] == 'E' && r[5] == 'R';
    assert EntityPath(env, service.name) != RepositoryPath(env, service.name);
  }

  lemma {:induction false} AfterServicesAppend(env: Collaborators, st: Snapshot, a: seq<RepositoryService>, b: seq<RepositoryService>)
    requires AllBuildable(a) && AllBuildable(b)
    ensures AllBuildable(a + b)
    ensures AfterServices(env, st, a + b) == AfterServices(env, AfterServices(env, st, a), b)
    decreases |b|
  {
    AllBuildableAppend(a, b);
    if b == [] {
      assert a + b == a;
    } else {
      var n := |b| - 1;
      AfterServicesAppend(env, st, a, b[..n]);
      LastOfAppend(a, b);
    }
  }

  lemma AllBuildableAppend(a: seq<RepositoryService>, b: seq<RepositoryService>)
    requires AllBuildable(a) && AllBuildable(b)
    ensures AllBuildable(a + b)
    ensures |b| > 0 ==> AllBuildable(b[..|b| - 1])
  {
  }

  lemma LastOfAppend<T>(a: seq<T>, b: seq<T>)
    requires |b| > 0
    ensures (a + b)[..|a + b| - 1] == a + b[..|b| - 1]
    ensures (a + b)[|a + b| - 1] == b[|b| - 1]
  {
  }

  /**
    Building the repositories in order is building all their services in
    order: repository by repository, and within each in collection order.
   */
  lemma {:induction false} ProjectIsServicesInOrder(env: Collaborators, st: Snapshot, repositories: seq<ProjectRepository>)
    requires ProjectBuildable(repositories)
    ensures AllBuildable(AllServices(repositories))
    ensures AfterRepositories(env, st, repositories) == AfterServices(env, st, AllServices(repositories))
    decreases |repositories|
  {
    if repositories != [] {
      var n := |repositories| - 1;
      ProjectIsServicesInOrder(env, st, repositories[..n]);
      AfterServicesAppend(env, st, AllServices(repositories[..n]), repositories[n].services);
    }
  }

  /** Every service built flushes exactly once; after at least one, nothing is pending. */
  lemma {:induction false} OneFlushPerService(env: Collaborators, st: Snapshot, services: seq<RepositoryService>)
    requires AllBuildable(services)
    ensures CountFlushes(AfterServices(env, st, services).log) == CountFlushes(st.log) + |services|
    ensures services != [] ==> AfterServices(env, st, services).pending == map[]
    decreases |services|
  {
    if services != [] {
      var n := |services| - 1;
      var before := AfterServices(env, st, services[..n]);
      OneFlushPerService(env, st, services[..n]);
      ServiceCallOrder(env, services[n]);
      CountFlushesAppend(before.log, ServiceCalls(env, services[n]));
    }
  }

  // ---------------------------------------------------------------------------
  // The builder

  class Builder {
    const generator: Generator
    const edit: Editor

    constructor (generator: Generator, edit: Editor)
      ensures this.generator == generator && this.edit == edit
    {
      this.generator := generator;
      this.edit := edit;
    }

    function Env(): Collaborators
    {
      Collaborators(generator.render, generator.locate, edit)
    }

    /** `buildProject`: builds every repository in order and returns the project. */
    method BuildProject(project: Project) returns (r: Project)
      requires ProjectBuildable(project.repositories)
      modifies generator
      ensures r == project
      ensures generator.State() == AfterRepositories(Env(), old(generator.State()), project.repositories)
    {
      var repositories := project.repositories;
      for i := 0 to |repositories|
        invariant generator.State() == AfterRepositories(Env(), old(generator.State()), repositories[..i])
      {
        assert repositories[..i + 1][..i] == repositories[..i];
        BuildRepository(repositories[i]);
      }
      assert repositories[..|repositories|] == repositories;
      r := project;
    }

    /** `buildRepository`: builds every service of the repository in order. */
    method BuildRepository(repository: ProjectRepository)
      requires AllBuildable(repository.services)
      modifies generator
      ensures generator.State() == AfterServices(Env(), old(generator.State()), repository.services)
    {
      var services := repository.services;
      for i := 0 to |services|
        invariant generator.State() == AfterServices(Env(), old(generator.State()), services[..i])
      {
        assert services[..i + 1][..i] == services[..i];
        BuildService(services[i]);
      }
      assert services[..|services|] == services;
    }

    /**
      `buildService`: renders the entity, folds each field into its pending text
      (writing the running text back after every field), renders the
      repository, and flushes once.
     */
    method BuildService(service: RepositoryService)
      requires Buildable(service.name)
      modifies generator
      ensures generator.State() == AfterService(Env(), old(generator.State()), service)
    {
      var name := service.name;
      var serviceFields := service.serviceFields;
      RepositoryNamesDerivable(name);

      var entityTargetPath := BuildClass(name, false);
      var sourceCode := generator.GetFileContentsForPendingOperation(entityTargetPath);
      ghost var initial := sourceCode;
      ghost var afterEntity := generator.State();

      for i := 0 to |serviceFields|
        invariant sourceCode == FoldFields(edit, initial, serviceFields[..i])
        invariant generator.State() == Snapshot(afterEntity.pending[entityTargetPath := sourceCode], afterEntity.written,
          afterEntity.log + DumpCalls(edit, entityTargetPath, initial, serviceFields[..i]))
      {
        FoldFieldsPrefix(edit, initial, serviceFields, i);
        DumpCallsSnoc(edit, entityTargetPath, initial, serviceFields, i);
        ghost var before := sourceCode;
        sourceCode := BuildServiceField(edit, serviceFields[i], sourceCode);
        generator.DumpFile(entityTargetPath, sourceCode);
        DumpFileOverwrites(afterEntity, entityTargetPath, before, sourceCode,
          DumpCalls(edit, entityTargetPath, initial, serviceFields[..i]));
      }
      assert serviceFields[..|serviceFields|] == serviceFields;
      ghost var afterFields := generator.State();

      var _ := BuildClass(name, true);
      generator.WriteChanges();
      ServiceStepsCompose(Env(), old(generator.State()), service, afterEntity, afterFields, generator.State());
    }

    /** `buildClass($name, $isRepository)`: picks the template and class name and generates it. */
    method BuildClass(name: string, isRepository: bool) returns (targetPath: string)
      requires CanDeriveNames(ClassFqcn(name, isRepository))
      modifies generator
      ensures targetPath == generator.locate(ClassFqcn(name, isRepository))
      ensures generator.State() == AfterGenerateClass(old(generator.State()), ClassFqcn(name, isRepository),
        TemplateName(isRepository), ClassVariables(ClassFqcn(name, isRepository)), targetPath,
        RenderedClass(Env(), name, isRepository))
    {
      var templateName := TemplateName(isRepository);
      var fqcn := ClassFqcn(name, isRepository);
      targetPath := GenerateClassTargetPath(fqcn, templateName);
    }

    /** `generateClassTargetPath`: derives the template variables and generates the class. */
    method GenerateClassTargetPath(fqcn: string, templateName: string) returns (targetPath: string)
      requires CanDeriveNames(fqcn)
      modifies generator
      ensures targetPath == generator.locate(fqcn)
      ensures generator.State() == AfterGenerateClass(old(generator.State()), fqcn, templateName,
        ClassVariables(fqcn), targetPath, generator.render(templateName, fqcn, ClassVariables(fqcn)))
    {
      targetPath := generator.GenerateClass(fqcn, templateName, ClassVariables(fqcn));
    }
  }

  /** The generator states `buildService` passes through add up to AfterService. */
  lemma ServiceStepsCompose(env: Collaborators, st: Snapshot, service: RepositoryService,
                            afterEntity: Snapshot, afterFields: Snapshot, final: Snapshot)
    requires Buildable(service.name) && CanDeriveNames(ClassFqcn(service.name, true))
    requires afterEntity == AfterGenerateClass(st, ClassFqcn(service.name, false), TemplateName(false),
      ClassVariables(ClassFqcn(service.name, false)), EntityPath(env, service.name), RenderedClass(env, service.name, false))
    requires afterFields.pending == afterEntity.pending[EntityPath(env, service.name) :=
      FoldFields(env.edit, RenderedClass(env, service.name, false), service.serviceFields)]
    requires afterFields.written == afterEntity.written
    requires afterFields.log == afterEntity.log
      + DumpCalls(env.edit, EntityPath(env, service.name), RenderedClass(env, service.name, false), service.serviceFields)
    requires final == AfterWriteChanges(AfterGenerateClass(afterFields, ClassFqcn(service.name, true), TemplateName(true),
      ClassVariables(ClassFqcn(service.name, true)), RepositoryPath(env, service.name), RenderedClass(env, service.name, true)))
    ensures final == AfterService(env, st, service)
  {
    var e, r := EntityPath(env, service.name), RepositoryPath(env, service.name);
    var entityText := FoldFields(env.edit, RenderedClass(env, service.name, false), service.serviceFields);
    var repositoryText := RenderedClass(env, service.name, true);
    var files := ServiceFiles(env, service);
    assert files == map[e := entityText][r := repositoryText];
    var dumps := DumpCalls(env.edit, e, RenderedClass(env, service.name, false), service.serviceFields);
    var first, second := GenerateCall(env, service.name, false), GenerateCall(env, service.name, true);
    assert ServiceCalls(env, service) == [first] + dumps + [second, WriteChangesCall];
    SnapshotSteps(st, afterEntity, afterFields, final, e, r, RenderedClass(env, service.name, false),
                  entityText, repositoryText, first, second, dumps, files);
  }

  lemma DumpCallsSnoc(edit: Editor, path: string, text: string, fields: seq<ServiceField>, i: nat)
    requires i < |fields|
    ensures DumpCalls(edit, path, text, fields[..i + 1])
         == DumpCalls(edit, path, text, fields[..i]) + [DumpFileCall(path, FoldFields(edit, text, fields[..i + 1]))]
  {
    var a := DumpCalls(edit, path, text, fields[..i + 1]);
    var b := DumpCalls(edit, path, text, fields[..i]) + [DumpFileCall(path, FoldFields(edit, text, fields[..i + 1]))];
    forall k | 0 <= k < i + 1
      ensures a[k] == b[k]
    {
      assert fields[..i + 1][..k + 1] == fields[..k + 1];
      if k < i {
        assert fields[..i][..k + 1] == fields[..k + 1];
      }
    }
  }
}
