# API as a Service: the class builder and the service entity, in Dafny

This project models two parts of the "API as a Service" Symfony application.

- `App\Service\Builder` turns a project description into generated PHP
  classes. It walks the project's repositories and, in each one, its services.
  For every service it does four things:
  - it renders a Doctrine entity class from `doctrine/Entity.tpl.php` as
    `Aaas\Entity\<name>`;
  - it folds every field description into the entity's pending source text,
    writing the running text back to the generator after each field;
  - it renders the paired repository class `Aaas\Repository\<name>Repository`
    from `doctrine/Repository.tpl.php`;
  - it asks the generator to flush all pending files once.

  The template variables are derived from the short class name. That
  derivation uses `explode`/`end`, `lcfirst` and
  `preg_split('/(?=[A-Z])/', …)[1]`.
- `App\Entity\Service` is the attribute holder of a service: a name, a
  description, an owning repository, and a collection of field descriptions.
  Each field points back at its service. Adding and removing a field keep both
  sides of that link in step.

Layout:

- `php.dfy` (module `Php`) holds the PHP values and built-ins the code relies
  on:
  - nullable values, and the scalars stored in option arrays;
  - `lcfirst`;
  - `explode`, with its inverse `implode`, and `end`;
  - `preg_split` on "before every capital", written as a tokenizer with its
    own lemmas.
- `maker_bundle.dfy` (module `MakerBundle`) holds the generator the builder
  drives. It is a class with a map of pending texts, a map of flushed files,
  and a log of the calls made on it. Template rendering and the class-to-path
  mapping are its function-valued constants `render` and `locate`.
- `builder.dfy` (module `AppService`) holds two things:
  - the `Builder` class, whose methods are proved against pure functions
    describing the generator state after a service (`AfterService`), a
    repository (`AfterServices`) and a project (`AfterRepositories`);
  - the lemmas about those functions.
- `service_entity.dfy` (module `AppEntity`) holds the `Service` class, with
  `Repository` and `ServiceField` classes reduced to what the service touches.

The project, repository, service and field descriptions that the builder
reads are value datatypes, because the builder never changes them. The source
editor, MakerBundle's `ClassSourceManipulator`, is the injected function
`edit(sourceCode, fieldName, options)`.

A capitalised single word such as `Customer` splits into `["", "Customer"]`,
so piece 1 exists and the build goes ahead. Only a name with no capital at all
fails (`EntityNamesDerivable`).

The model also states, as the code does it, what the repository template is
told:
- its `entity_full_class_name` is `Aaas\Entity\` plus the first word of the
  service name, so `UserProfile` gives `Aaas\Entity\User`
  (`RepositoryEntityName`);
- its `repository_full_class_name` ends in `RepositoryRepository`
  (`RepositoryClassVariables`).

## Model

| member | source | states |
|---|---|---|
| AppService.FieldOptions | src/Service/Builder.php:133-148 | `fieldName` and `type` are always present. `nullable` and `unique` are present, with value true, exactly when the getter returns strictly `true`. `length` is present, holding the nullable length, exactly when the data type is `"string"`. No other key appears. |
| AppService.BuildServiceField | src/Service/Builder.php:126-153 | One field folded into the entity text: the editor adds the field under its name with the options array of `FieldOptions` and hands back the new source text. Its properties are stated by `FieldOptions`, `FoldFieldsSnoc` and `ServiceFilesContent`. |
| AppService.FoldFields | src/Service/Builder.php:89-92 | The running source text after the `foreach` over the fields, first to last. Its properties are stated by `FoldFieldsSnoc`, `FoldFieldsAppend` and `ServiceFilesContent`. |
| AppService.TemplateName | src/Service/Builder.php:111 | The template is `doctrine/Repository.tpl.php` for a repository and `doctrine/Entity.tpl.php` for an entity. |
| AppService.ClassFqcn | src/Service/Builder.php:112 | The FQCN `buildClass` generates: `Aaas\Entity\<name>`, or `Aaas\Repository\<name>Repository`. Its properties are stated by `BuildClassNames`. |
| AppService.ShortName | src/Service/Builder.php:164-165 | `end(explode('\\', $fqcn))`: the short class name, which holds no backslash. `BuildClassNames` and `LastPieceAfterSeparator` state that it is the text after the last namespace separator. |
| AppService.ClassVariables | src/Service/Builder.php:167-173 | The variables array passed to `generateClass`, defined only when piece `[1]` of the short name exists. `EntityClassVariables`, `RepositoryClassVariables`, `EntityFullClassName` and `RepositoryEntityName` state its five entries. |
| AppService.FoldFieldsSnoc | src/Service/Builder.php:89-92 | One more field in the loop applies `buildServiceField` once more, to the running source text. |
| AppService.FoldFieldsAppend | src/Service/Builder.php:89-92 | Folding a concatenation of field lists is folding the second list into the result of the first. |
| AppService.DumpCalls | src/Service/Builder.php:89-92 | The loop makes exactly one `dumpFile` call per field. |
| AppService.BuildClassNames | src/Service/Builder.php:111-112 | The templates are `doctrine/Entity.tpl.php` and `doctrine/Repository.tpl.php`. The FQCNs are `Aaas\Entity\<name>` and `Aaas\Repository\<name>Repository`. `end(explode('\\', …))` gives back `<name>` and `<name>Repository`. |
| AppService.RepositoryNamesDerivable | src/Service/Builder.php:172 | The `[1]` piece always exists for a repository class, because its short name ends in `Repository`. |
| AppService.EntityNamesDerivable | src/Service/Builder.php:172 | For a name without a backslash, the entity's `[1]` piece exists exactly when the name holds a capital letter. |
| AppService.EntityFullClassName | src/Service/Builder.php:164-172 | `entity_full_class_name` is the entity namespace plus the first word of the short class name, meaning the text from its first capital up to the next capital. |
| AppService.EntityClassVariables | src/Service/Builder.php:164-173 | Gives the full variables array for an entity: the short name is the service name, and the alias is its lower-cased first letter. The repository is `Aaas\Repository\<name>Repository`. The entity name is the first word of the service name. |
| AppService.RepositoryClassVariables | src/Service/Builder.php:164-173 | Gives the full variables array for a repository class: the short name is `<name>Repository`, and the repository name is `Aaas\Repository\<name>RepositoryRepository`. |
| AppService.RepositoryEntityName | src/Service/Builder.php:97-112 | For a name starting with a capital, the repository and entity templates are told the same `entity_full_class_name`. It equals the entity's own FQCN exactly when the name holds no further capital. |
| AppService.ServiceCallOrder | src/Service/Builder.php:78-100 | A service causes `generateClass` for the entity first. Next come one `dumpFile` per field, on the entity's path, carrying the text with the first k fields folded in. Then comes `generateClass` for the repository, and one `writeChanges`. |
| AppService.ServiceFilesContent | src/Service/Builder.php:86-99 | When classes map to distinct paths, a service leaves two files. The entity's file is its rendered template with every field folded in, in order. The repository's file is its rendered template. |
| AppService.AfterServicesAppend | src/Service/Builder.php:66-73 | Building a concatenation of service lists is building the first list, then the second, from where the first stopped. |
| AppService.ProjectIsServicesInOrder | src/Service/Builder.php:52-73 | Building a project is building all its services in order: repository by repository, and within each in collection order. |
| AppService.OneFlushPerService | src/Service/Builder.php:66-99 | Each service built adds exactly one `writeChanges`. After at least one service, nothing is left pending. |
| AppService.Builder.constructor | src/Service/Builder.php:43-46 | The builder keeps the generator it is given. |
| AppService.Builder.BuildProject | src/Service/Builder.php:52-61 | Returns the project itself. The generator ends in the state of building each repository in order. |
| AppService.Builder.BuildRepository | src/Service/Builder.php:66-73 | The generator ends in the state of building each service of the repository in order. |
| AppService.Builder.BuildService | src/Service/Builder.php:78-100 | The generator ends with nothing pending. Its files are the earlier ones, the earlier pending ones and this service's two files. Its log gains exactly this service's calls. |
| AppService.Builder.BuildClass | src/Service/Builder.php:109-117 | Generates the FQCN from the template chosen by `isRepository`, with the derived variables. Returns the path the generator assigns. |
| AppService.Builder.GenerateClassTargetPath | src/Service/Builder.php:162-174 | Calls `generateClass` once, with the FQCN, the template and the derived variables array. Returns the target path it gives back. |
| Php.LcFirst | src/Service/Builder.php:170 | `lcfirst` keeps the length. Its first character is `LowerChar` of the original first character, and the rest is unchanged. |
| Php.LowerChar | src/Service/Builder.php:170 | The result is never a capital. A capital maps to the lower-case letter at the same offset, and anything else is unchanged. |
| Php.Explode | src/Service/Builder.php:164-165 | `explode` gives at least one piece, and no piece holds the separator. |
| Php.ImplodeExplode | src/Service/Builder.php:164-165 | Joining the pieces with the separator gives the string back. |
| Php.ExplodeImplode | src/Service/Builder.php:164-165 | Splitting separator-free pieces joined by the separator gives the pieces back. |
| Php.ExplodeAppend | src/Service/Builder.php:164-165 | Appending separator-free text adds no piece and extends the last piece. |
| Php.LastPieceAfterSeparator | src/Service/Builder.php:164-165 | `end(explode(…))` of a namespace ending in `\` followed by a plain name is the name. |
| Php.SplitBeforeUpper | src/Service/Builder.php:172 | `preg_split('/(?=[A-Z])/', …)` gives at least one piece. The first piece has no capital. Every later piece is one capital followed by non-capitals. |
| Php.ConcatSplitBeforeUpper | src/Service/Builder.php:172 | The pieces, put back together, give the string. |
| Php.SplitHasSecondPiece | src/Service/Builder.php:172 | Piece `[1]` exists exactly when the string holds a capital. |
| Php.SplitBeforeUpperFirstPiece | src/Service/Builder.php:172 | Piece `[0]` is the text before the first capital. |
| Php.SplitBeforeUpperSecondPiece | src/Service/Builder.php:172 | Piece `[1]` runs from the first capital up to the next capital, or to the end. |
| Php.SplitUserProfile | src/Service/Builder.php:172 | Piece `[1]` of `UserProfile` is `User`. |
| AppEntity.Service.constructor | src/Entity/Service.php:57-60 | A new service has an empty field collection. |
| AppEntity.Service.SetName | src/Entity/Service.php:67-77 | `getName` then returns the name. Nothing else changes. |
| AppEntity.Service.SetDescription | src/Entity/Service.php:79-89 | `getDescription` then returns the (nullable) description. Nothing else changes. |
| AppEntity.Service.SetRepository | src/Entity/Service.php:91-101 | `getRepository` then returns the (nullable) repository. Nothing else changes. |
| AppEntity.Service.AddServiceField | src/Entity/Service.php:106-119 | A field not in the collection is appended and pointed back at this service. A field already there changes nothing. A duplicate-free collection stays duplicate-free and holds the field exactly once. |
| AppEntity.Service.RemoveServiceField | src/Entity/Service.php:121-132 | The collection loses the first occurrence of the field. The back-pointer is cleared only if the field was in the collection and still points at this service. A field not in the collection changes nothing. On a duplicate-free collection, the field is gone and every other field stays, in order. |
| AppEntity.RemoveElement | src/Entity/Service.php:123-124 | `removeElement` leaves the collection of an absent element unchanged, and shortens it by exactly one when the element is present. |
| AppEntity.RemoveElementFirstOccurrence | src/Entity/Service.php:123-124 | When the element is present, removal cuts out its first occurrence: everything before it and everything after it stays, in order. |
| AppEntity.RemoveElementWithoutDuplicates | src/Entity/Service.php:123-124 | On a duplicate-free collection, removal equals filtering out the element. The element is gone, membership of every other element is unchanged, and no duplicate appears. |
| AppEntity.AppendAbsent | src/Entity/Service.php:113-114 | Appending an absent field keeps the collection duplicate-free, with one occurrence of the field. |
| AppEntity.OccursOnce | src/Entity/Service.php:113 | In a duplicate-free collection, a field that is present occurs exactly once. |

## Left out

- MakerBundle's `Generator` internals are not part of this model: template
  rendering, the mapping from class name to file path, and writing to disk.
  They are represented by the function-valued `render` and `locate` and by a
  map of written files.
  - Its error when a target file already exists is not modelled.
  - Its error when `getFileContentsForPendingOperation` finds nothing pending
    is a precondition, which `buildService` always meets.
- `ClassSourceManipulator` is not part of this model. It is the injected total
  function `edit`. Its exceptions (for example rejecting a field that already
  exists) are not modelled, and neither is an exception aborting a build part
  way.
- AppService.Builder.BuildService: the PHP notice on `preg_split(...)[1]` for a name
  without any capital is modelled as the precondition `Buildable`, not as a
  failing run.
- Php.SplitBeforeUpper: the regular expression is modelled for ASCII `A`–`Z`
  only. `lcfirst` is modelled as ASCII lower-casing.
- AppService.ClassVariables: strings are character sequences, not PHP byte
  strings. `entity_alias` differs from PHP's for a name whose first character
  is not ASCII: PHP's `lcfirst($className)[0]` yields the first byte only.
- PHP array key order in the options and template-variables arrays is not
  modelled, because maps are unordered.
- `src/Entity/ServiceField.php`, `Project.php` and `Repository.php` are not
  part of this model. The builder reads projects, repositories, services and
  fields as values. The entity side keeps only a service's back-pointer on a
  field and an empty repository class.
- Service.php: these parts of `App\Entity\Service` are left out:
  - the Doctrine and API Platform annotations, the `id` column and `getId`,
    which are persistence concerns;
  - the fluent `return $this` of the setters;
  - the fact that `getServiceFields` hands out the live collection, which a
    caller could change behind the service's back. The getter returns the
    collection as a value.
- `setName` accepts only a non-null string. A
  never-set name is `None`, standing for PHP's uninitialised `null`.
