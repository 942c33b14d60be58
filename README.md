# artax `generate`, modelled in Dafny

This project models the `generate` command of the artax scaffolding CLI. The
command is `artax generate <kind> <name> [--js]`, run at the root of an artax
project. It reads the project type from the `.artaxrc` marker. It checks that
a kind and a name were given. Then it starts the one generator that the
project type offers for that kind.

Each generator works on the name it was given:

- it lower-cases the name;
- it derives a file name (`path.basename` without `path.extname`) and a title
  (`titleCase(...)` with only its first `-` replaced by a space);
- it builds fixed template texts from those names;
- it refuses with exit status 1 when a target path already exists;
- otherwise it writes its files in a fixed order.

The generators modelled are:

- the Static HTML component and page;
- the WordPress component, page and template;
- the common Sass mixin;
- the Drupal Sass function.

Module layout:

- `Outcomes` (`outcomes.dfy`) holds the errors, the results and the exit status.
- `Strings` (`strings.dfy`) holds `indexOf`/`lastIndexOf` and the line
  structure of template literals. `JoinLines` builds a text, `Lines` reads it
  back, and `LinesOfJoin` proves that the two agree.
- `Names` (`names.dfy`) holds `toLowerCase`, Node's POSIX `path.basename` and
  `path.extname`, and the first-hyphen-only title rule.
- `FileSystem` (`filesystem.dfy`) describes the files. A file system is a map
  from path to content plus a set of directories. A directory also exists
  when some file or directory lies below it.
  - A generator run is described as a value. `Create` takes the guarded
    paths, the planned writes and the writer. The writer is `outputFileSync`,
    which creates parent directories, or `writeFileSync`, which fails when
    the parent is missing. `Create` returns an `Effect`: the result and the
    writes that were actually made.
  - The class `Disk` holds the files as mutable fields. It offers
    `Exists`, `OutputFile` and `WriteFile`, and keeps a ghost log of the
    paths it has written, in order.
- `Components` (`components.dfy`) holds what the two component generators
  share. That is the component's directory, `createPath`, and the partials'
  paths by extension.
- Each generator has its own module: `StaticHtmlComponent`,
  `WordPressComponent`, `WordPressTemplate`, `DrupalScssFunction`,
  `CommonScssMixin`, `StaticHtmlPage` and `WordPressPage`. Each one defines:
  - the template texts;
  - `Plan`, the ordered writes;
  - `Run`, the effect as a value;
  - lemmas about the contents, the outcomes, running twice, and case
    insensitivity (`CaseInsensitive`: the name is used only lower-cased;
    `WordPressPage` also proves that its content does not depend on the
    name);
  - a `Generate` method on a `Disk`. It follows the source statement by
    statement, and its contract ties the new disk state to `Run`. The
    WordPress template generator's two checks and two `writeFileSync` calls
    are the shared method `FileSystem.CreateTwo`, which its `Generate`
    calls.
- `Dispatcher` (`dispatch.dfy`) models the checks and the nested `switch` of
  `artax-generate.js`. `Dispatch` is a total function over what the marker
  holds, the arguments and the flag. It returns an error, `Ok(None)` for an
  unknown project type, or the one generator call. It is proved equal to a
  decision table written out row by row.
- `Command` (`command.dfy`) composes the pieces: it dispatches, then applies
  the chosen generator's effect. It proves that every run of a modelled
  generator, and every run that stops before one, keeps every file that was
  already there with its content.

`titleCase` (the repository's own helper) and `snakeCase` (from
`change-case`) are function-typed parameters. Nearly every lemma holds for
any such functions. Three lemmas state what they need of them:
`StaticHtmlComponent.PartialsAgree` requires that their outputs hold no line
break, `Names.TitleOfHyphenated` requires that `titleCase` gives a title
`w1-w2` whose first word has no hyphen, and `Names.CardLayoutScenario`
requires that `titleCase` maps "card-layout" to "Card-Layout".

Three behaviours of the code that are easy to miss:

- An unknown project type prints a message, generates nothing and exits
  with status 0 (`artax-generate.js:175-176`). It is not a failure.
- `.artaxrc` is read and parsed (`artax-generate.js:50`) before the kind and
  the name are checked. So an unreadable marker is reported ahead of a
  missing argument.
- The WordPress template generator writes the PHP file before the page. It
  uses `writeFileSync`, which fails when `src/pages` is missing. So a run can
  write the template and then fail. It never overwrites a file.

## Model

| member | source | states |
|---|---|---|
| Dispatcher.Dispatch | artax-generate.js:38-177 | an absent marker gives NotInProject and an unreadable one gives MarkerUnreadable; a missing or empty kind gives MissingKind, then a missing or empty name gives MissingName; a started generator gets `args[1]` as its name, and the `--js` flag is passed exactly to component generators |
| Dispatcher.TypeOf | artax-generate.js:68-175 | the three project types are recognised by exactly the strings "Static HTML", "Drupal" and "WordPress" |
| Dispatcher.SelectMatchesTable | artax-generate.js:74-171 | the inner switches select a generator exactly when (type, kind, generator) is a row of the decision table |
| Dispatcher.TableIsFunctional | artax-generate.js:68-177 | no two rows share a project type and a kind, so at most one generator is selected per run |
| Dispatcher.DispatchByTable | artax-generate.js:68-177 | with the marker read and both arguments given: an unknown type starts nothing and does not fail; a known type starts generator g iff its row names g, and fails with InvalidKind(kind) iff it has no row for the kind |
| Dispatcher.KindsOffered | artax-generate.js:74-171 | Static HTML and Drupal accept component, page, mixin and function; WordPress also accepts template; nothing else is accepted |
| Dispatcher.TemplateOnlyForWordPress | artax-generate.js:96-155 | `template` starts the WordPress template generator in a WordPress project, with no `--js`, and is InvalidKind in a Static HTML or Drupal project |
| Dispatcher.SassGeneratorsByFamily | artax-generate.js:86-165 | mixin and function go to the common generators for Static HTML and WordPress, and to the Drupal generators for Drupal |
| Dispatcher.GeneratorFamily | artax-generate.js:68-172 | a Drupal generator runs iff the project is Drupal; a WordPress generator runs only in a WordPress project and a Static HTML one only in a Static HTML project |
| Dispatcher.ExitStatus | artax-generate.js:38-177 | exit status is 1 exactly on failure; an unknown project type with both arguments given yields Ok(None), exit 0 |
| Outcomes.ExitCode | artax-generate.js:38-41 | the status is 0 iff the run succeeded, and at most 1 |
| Command.Perform | artax-generate.js:68-172 | a call has an effect in the model exactly for the generators this model covers |
| Command.NeverOverwrites | artax-generate.js:68-177 | every run of a modelled generator, and every run that stops before one, whatever the marker, arguments and files, keeps every file that was there with the same content |
| Command.PerformKeeps | artax-generate.js:68-172 | every modelled generator keeps every file that was already there |
| Command.StaticComponentKeeps | inc/blueprints/generate/static-html/component.js:55-82 | the Static HTML component generator keeps every existing file |
| Command.StaticPageKeeps | inc/blueprints/generate/static-html/page.js:24-32 | the Static HTML page generator keeps every existing file |
| Command.MixinKeeps | inc/blueprints/generate/common/scss-mixin.js:42-50 | the common mixin generator keeps every existing file |
| Command.DrupalFunctionKeeps | inc/blueprints/generate/drupal/scss-function.js:42-50 | the Drupal function generator keeps every existing file |
| Command.WordPressComponentKeeps | inc/blueprints/generate/wordpress/component.js:36-60 | the WordPress component generator keeps every existing file |
| Command.WordPressPageKeeps | inc/blueprints/generate/wordpress/page.js:19-27 | the WordPress page generator keeps every existing file |
| Command.TemplateKeeps | inc/blueprints/generate/wordpress/template.js:34-46 | the WordPress template generator keeps every existing file, even when it fails half-way |
| Command.NothingWrittenBeforeAGenerator | artax-generate.js:38-62 | a run whose checks fail, or whose project type is unknown, writes nothing; it fails iff the dispatcher fails, and with NotInProject when there is no marker |
| Command.StaticComponentDispatch | artax-generate.js:71-79 | `component` in a Static HTML project starts the static component generator with the name and the flag |
| Command.JsFlagAddsOnePartial | inc/blueprints/generate/static-html/component.js:68-82 | in a Static HTML project `--js` does not change the outcome, and on success the run writes 4 files instead of 3 |
| Names.LowerChar | inc/blueprints/generate/static-html/component.js:9 | an upper-case ASCII letter becomes its lower-case partner; every other character is kept |
| Names.ToLower | inc/blueprints/generate/static-html/component.js:9 | lower-casing keeps the length |
| Names.ToLowerChars | inc/blueprints/generate/static-html/component.js:9 | the lower-cased name has no upper-case letter, each upper-case letter is shifted by 32 and every other character is kept |
| Names.ToLowerIdempotent | inc/blueprints/generate/static-html/component.js:9 | lower-casing twice is lower-casing once |
| Names.StripTrailingSlashes | inc/blueprints/generate/static-html/component.js:12 | the result is a prefix of the path that does not end in `/`, and only slashes were removed |
| Names.LastSegment | inc/blueprints/generate/static-html/component.js:12 | the last path segment holds no `/` and is no longer than the path |
| Names.LastSegmentAfterLastSlash | inc/blueprints/generate/static-html/component.js:12 | the last segment is the end of the path without its trailing slashes, and is either all of it or starts right after a `/`, so it is everything after the last slash |
| Names.FileNameSplit | inc/blueprints/generate/static-html/component.js:12 | file name followed by extension is the last segment; the file name has no `/`, is non-empty for a non-empty segment and is the whole segment when it has no dot, and is the segment up to its last dot when a dot follows its first character (other than `..`); an extension starts with its only dot |
| Names.ExtNameIsProperSuffix | inc/blueprints/generate/static-html/component.js:12 | a non-empty extension is a proper suffix of the last segment, starting at its last dot; conversely a segment other than `..` with a dot after its first character has the extension from its last dot |
| Names.NoNewlineKept | inc/blueprints/generate/static-html/component.js:9-12 | a name without a line break gives a lower-cased name and a file name without one |
| Names.ReplaceFirst | inc/blueprints/generate/static-html/component.js:13 | `replace` with a one-character pattern keeps the length, changes nothing when the pattern is absent, and otherwise replaces exactly the first occurrence |
| Names.ProperTitleFirstHyphenOnly | inc/blueprints/generate/static-html/component.js:13 | the title keeps the length of `titleCase`'s output; its first hyphen becomes a space, no hyphen comes before it, and every other character, later hyphens included, is kept |
| Names.TitleOfHyphenated | inc/blueprints/generate/wordpress/template.js:9 | a title `w1-w2` whose first word has no hyphen becomes `w1 w2` |
| Names.CardLayoutScenario | inc/blueprints/generate/common/scss-mixin.js:8-9 | "Card-Layout" is used as "card-layout", and its title is "Card Layout" |
| Strings.IndexOf | inc/blueprints/generate/static-html/component.js:13 | the first occurrence of a character, or -1 exactly when it is absent |
| Strings.LastIndexOf | inc/blueprints/generate/static-html/component.js:12 | the last occurrence of a character, or -1 exactly when it is absent |
| Strings.LinesOfJoin | inc/blueprints/generate/static-html/component.js:20-52 | a template literal made of lines without line breaks splits back into exactly those lines |
| FileSystem.Parent | inc/blueprints/generate/wordpress/template.js:42-46 | the directory a path lies in is "" or a prefix of it followed by `/` |
| FileSystem.FirstExisting | inc/blueprints/generate/wordpress/template.js:34 | none is found iff no guarded path exists; otherwise the path found is a guard that exists and no guard tested before it exists |
| FileSystem.Performed | inc/blueprints/generate/wordpress/template.js:42-46 | the writes made are a prefix of the plan; `outputFileSync` makes all of them; with `writeFileSync` every write made found its directory, after the writes before it, and the first write not made is one whose directory is missing |
| FileSystem.Create | inc/blueprints/generate/static-html/page.js:24-32 | an existing guard refuses with AlreadyExists and no write; when no guard exists the writes made are exactly the ones `Performed` says succeed; success means no guard exists and every planned write was made; when no guard exists and a planned write was not made, the result is WriteFailed naming the first unmade write; a WriteFailed names that write, whose directory is missing |
| FileSystem.ApplyFresh | inc/blueprints/generate/static-html/component.js:63-82 | writes to fresh, distinct paths add exactly those paths with their contents and keep every other file |
| FileSystem.CreateOnlyAdds | inc/blueprints/generate/static-html/component.js:55-82 | when every target is guarded, a run, whatever its outcome, keeps every existing file and adds exactly the files it wrote |
| FileSystem.CreateSingle | inc/blueprints/generate/static-html/page.js:24-32 | one guarded `writeFileSync` is refused if its path exists, fails without writing if its directory is missing, and otherwise writes that one file |
| FileSystem.CreateOutput | inc/blueprints/generate/static-html/component.js:55-82 | one guard with `outputFileSync` is refused if it exists and otherwise makes every planned write |
| FileSystem.CreatePair | inc/blueprints/generate/wordpress/template.js:34-46 | two guarded `writeFileSync` calls: refused on the first existing guard; otherwise the first is written if its directory exists, and the second if its directory exists once the first is written |
| FileSystem.CreatePairOnlyAdds | inc/blueprints/generate/wordpress/template.js:34-46 | two writes to different paths, each guarded by its own path, keep every existing file and add only the files written |
| FileSystem.CreateTwo | inc/blueprints/generate/wordpress/template.js:34-46 | checks both paths, then writes the first file and the second, stopping at the first write that throws; the result, files and write log are those of `Create` with both paths as guards, and the directories are unchanged |
| FileSystem.RepeatRefused | inc/blueprints/generate/static-html/component.js:55-58 | a second run on what the first left behind always fails and writes nothing; after a first run that wrote, it is refused with AlreadyExists of a guard (the first guard, when that guards the first target); after one that wrote nothing, it repeats the first run's outcome |
| FileSystem.Disk.OutputFile | inc/blueprints/generate/static-html/component.js:64 | the file is written, the directories are unchanged and the path is logged |
| FileSystem.Disk.WriteFile | inc/blueprints/generate/wordpress/template.js:42 | succeeds exactly when the parent directory exists, and then writes and logs the file; otherwise nothing changes |
| Components.Suffix | inc/blueprints/generate/static-html/component.js:71-81 | every extension is a dot followed by at least one character, with no `/` |
| Components.SuffixInjective | inc/blueprints/generate/static-html/component.js:71-81 | different kinds of partial have different extensions |
| Components.PartialInDir | inc/blueprints/generate/static-html/component.js:17 | every partial's path starts with `src/components/<genName>/`, that directory is its parent, and it guards the partial |
| Components.PartialsApart | inc/blueprints/generate/static-html/component.js:63-82 | partials of different kinds are different files |
| Components.PartialsShape | inc/blueprints/generate/static-html/component.js:63-82 | partials of distinct kinds have distinct paths, all directly in and guarded by the component's directory |
| Components.JsShape | inc/blueprints/generate/static-html/component.js:33-36 | the JavaScript partial reads back as exactly its lines, an empty default-exported arrow function, the same for every component |
| Components.WrittenComponentExists | inc/blueprints/generate/static-html/component.js:55-64 | once a partial is written, the component's directory exists |
| StaticHtmlComponent.ScssShape | inc/blueprints/generate/static-html/component.js:20-30 | 11 lines: `// <title>`, `// Markup: <filename>.twig`, `// Styleguide Components.<title>`, `.<filename> {` |
| StaticHtmlComponent.TwigShape | inc/blueprints/generate/static-html/component.js:39-45 | 7 lines: `{% set data = <snake> %}`, the comment naming `components/<genName>/<filename>.twig`, `<article class="<filename>">` |
| StaticHtmlComponent.JsonShape | inc/blueprints/generate/static-html/component.js:48-52 | 5 lines: the second opens the object keyed by the snake-case name, and the last is `}` with no newline after it |
| StaticHtmlComponent.KindsDistinct | inc/blueprints/generate/static-html/component.js:68-82 | the kinds written are pairwise different |
| StaticHtmlComponent.Contents | inc/blueprints/generate/static-html/component.js:20-52 | one content per kind written |
| StaticHtmlComponent.PlanShape | inc/blueprints/generate/static-html/component.js:12-82 | 3 files, or 4 with `--js`, written as `.twig`, `.scss`, `.json`, then the constant `.js`, at distinct paths directly in `src/components/<genName>` |
| StaticHtmlComponent.PlanElements | inc/blueprints/generate/static-html/component.js:17-82 | each planned write, with its path and content |
| StaticHtmlComponent.Behaviour | inc/blueprints/generate/static-html/component.js:55-82 | refused with no write when `src/components/<genName>` exists; otherwise every planned file is written, which makes the directory exist; existing files are kept and only the written ones added |
| StaticHtmlComponent.RunTwice | inc/blueprints/generate/static-html/component.js:55-58 | generating the same component again is always refused with AlreadyExists of the component directory and writes nothing |
| StaticHtmlComponent.CaseInsensitive | inc/blueprints/generate/static-html/component.js:9 | names that lower-case alike generate the same |
| StaticHtmlComponent.PartialsAgree | inc/blueprints/generate/static-html/component.js:24-52 | the Twig partial binds the snake-case name the JSON file defines; its comment names its own path below `src/`; the Sass comment names it as the markup |
| StaticHtmlComponent.TwigPath | inc/blueprints/generate/static-html/component.js:17-41 | the Twig partial's path is `src/` followed by the path its comment names |
| StaticHtmlComponent.Generate | inc/blueprints/generate/static-html/component.js:9-82 | the disk's result, files and write log are those of `Run`, and its directories are unchanged |
| WordPressComponent.ScssShape | inc/blueprints/generate/wordpress/component.js:16-19 | the Sass partial is exactly `.<filename> {`, an empty line, `}` and a final newline |
| WordPressComponent.TwigShape | inc/blueprints/generate/wordpress/component.js:28-33 | 6 lines: the `src/macros.twig` import and `<article class="<filename>">` |
| WordPressComponent.KindsDistinct | inc/blueprints/generate/wordpress/component.js:49-60 | the kinds written are pairwise different |
| WordPressComponent.Contents | inc/blueprints/generate/wordpress/component.js:16-33 | one content per kind written |
| WordPressComponent.PlanShape | inc/blueprints/generate/wordpress/component.js:10-60 | 2 files, or 3 with `--js`: `.twig` and `.scss` with their contents, then the constant `.js`; no `.json`; distinct paths directly in `src/components/<genName>` |
| WordPressComponent.PlanElements | inc/blueprints/generate/wordpress/component.js:13-60 | each planned write, with its path and content |
| WordPressComponent.Behaviour | inc/blueprints/generate/wordpress/component.js:36-60 | refused with no write when the component's directory exists; otherwise every planned file is written; existing files are kept and only the written ones added |
| WordPressComponent.RunTwice | inc/blueprints/generate/wordpress/component.js:36-39 | generating the same component again is always refused with AlreadyExists of the component directory and writes nothing |
| WordPressComponent.CaseInsensitive | inc/blueprints/generate/wordpress/component.js:7 | names that lower-case alike generate the same |
| WordPressComponent.PartialsAgree | inc/blueprints/generate/wordpress/component.js:16-33 | the Twig article and the Sass rule use the same class, the component's file name |
| WordPressComponent.Generate | inc/blueprints/generate/wordpress/component.js:7-60 | the disk's result, files and write log are those of `Run`, and its directories are unchanged |
| WordPressTemplate.TemplateShape | inc/blueprints/generate/wordpress/template.js:21-31 | 11 lines: `<?php`, ` * Template Name: <title>`, and a render call for exactly the page path this generator writes |
| WordPressTemplate.PathsApart | inc/blueprints/generate/wordpress/template.js:11-12 | the template and the page are different files, and the template is not inside the page's directory |
| WordPressTemplate.TemplateLeavesPageDir | inc/blueprints/generate/wordpress/template.js:42-46 | writing the template neither creates nor removes the page's directory |
| WordPressTemplate.Behaviour | inc/blueprints/generate/wordpress/template.js:34-46 | refused with no write if the template, or else the page, exists; otherwise fails without writing when the root is unusable, writes both in order, or writes the template and fails on a missing page directory |
| WordPressTemplate.NoOverwrite | inc/blueprints/generate/wordpress/template.js:34-46 | on every outcome the existing files keep their contents and only the files written are added |
| WordPressTemplate.PlacesForPlainName | inc/blueprints/generate/wordpress/template.js:11-12 | for a name without `/`, the template sits at the project root and the page directly in `src/pages` |
| WordPressTemplate.RunTwice | inc/blueprints/generate/wordpress/template.js:34-37 | running again after a success or a half-done run is refused with AlreadyExists of the template and writes nothing; after a run that wrote nothing it repeats that run's failure |
| WordPressTemplate.CaseInsensitive | inc/blueprints/generate/wordpress/template.js:8 | names that lower-case alike generate the same |
| WordPressTemplate.Generate | inc/blueprints/generate/wordpress/template.js:8-46 | builds both paths and the template as the source does, then makes the checks and writes through `FileSystem.CreateTwo`; the disk's result, files and write log are those of `Run`, and its directories are unchanged |
| DrupalScssFunction.ContentShape | inc/blueprints/generate/drupal/scss-function.js:15-40 | 26 lines: `// <title>`, the documented `@function <genName>($param: null) {`, the usage `color: <genName>(red);`, `// Styleguide Sass Functions.<title>`, and a definition returning `$param` |
| DrupalScssFunction.Behaviour | inc/blueprints/generate/drupal/scss-function.js:42-50 | refused with no write if the partial exists; fails without writing if its directory is missing; otherwise writes exactly that one file; existing files are kept |
| DrupalScssFunction.TargetInFunctionsDir | inc/blueprints/generate/drupal/scss-function.js:12 | for a name without `/`, the partial lies directly in `static/src/global-scss/helpers/functions` |
| DrupalScssFunction.RunTwice | inc/blueprints/generate/drupal/scss-function.js:42-45 | generating the same function again after a success is refused with AlreadyExists of the partial and writes nothing; after a failure it fails the same way |
| DrupalScssFunction.CaseInsensitive | inc/blueprints/generate/drupal/scss-function.js:8 | names that lower-case alike generate the same |
| DrupalScssFunction.Generate | inc/blueprints/generate/drupal/scss-function.js:8-50 | the disk's result, files and write log are those of `Run`, and its directories are unchanged |
| CommonScssMixin.ContentShape | inc/blueprints/generate/common/scss-mixin.js:15-40 | 26 lines: `// <title>`, the documented `@mixin <genName>($param: null) {`, the usage `@include <genName>;`, `// Styleguide Sass Mixins.<title>`, and the mixin definition |
| CommonScssMixin.Behaviour | inc/blueprints/generate/common/scss-mixin.js:42-50 | refused with no write if the partial exists; fails without writing if its directory is missing; otherwise writes exactly that one file; existing files are kept |
| CommonScssMixin.TargetInMixinsDir | inc/blueprints/generate/common/scss-mixin.js:12 | for a name without `/`, the partial lies directly in `src/global-scss/helpers/mixins`, with no `static/` prefix |
| CommonScssMixin.RunTwice | inc/blueprints/generate/common/scss-mixin.js:42-45 | generating the same mixin again after a success is refused with AlreadyExists of the partial and writes nothing; after a failure it fails the same way |
| CommonScssMixin.CaseInsensitive | inc/blueprints/generate/common/scss-mixin.js:8 | names that lower-case alike generate the same |
| CommonScssMixin.Generate | inc/blueprints/generate/common/scss-mixin.js:8-50 | the disk's result, files and write log are those of `Run`, and its directories are unchanged |
| StaticHtmlPage.ContentShape | inc/blueprints/generate/static-html/page.js:13-21 | 9 lines: extends `layout.twig`, sets `page_title` to the title, the comment `<!-- <genName>.twig -->`, and `<h1><title></h1>` |
| StaticHtmlPage.Behaviour | inc/blueprints/generate/static-html/page.js:24-32 | refused with no write if the page exists; fails without writing if `src/pages` is missing; otherwise writes exactly that one file; existing files are kept |
| StaticHtmlPage.TargetInPagesDir | inc/blueprints/generate/static-html/page.js:11 | for a name without `/`, the page lies directly in `src/pages` |
| StaticHtmlPage.RunTwice | inc/blueprints/generate/static-html/page.js:24-27 | generating the same page again after a success is refused with AlreadyExists of the page and writes nothing; after a failure it fails the same way |
| StaticHtmlPage.CaseInsensitive | inc/blueprints/generate/static-html/page.js:8 | names that lower-case alike generate the same |
| StaticHtmlPage.Generate | inc/blueprints/generate/static-html/page.js:8-32 | the disk's result, files and write log are those of `Run`, and its directories are unchanged |
| WordPressPage.ContentShape | inc/blueprints/generate/wordpress/page.js:11-16 | 6 lines: extends `base.twig` and shows `{{ post.title }}` |
| WordPressPage.Plan | inc/blueprints/generate/wordpress/page.js:9-27 | one write, whose content is the constant page |
| WordPressPage.ContentIndependentOfName | inc/blueprints/generate/wordpress/page.js:7-16 | any two names give the same content, and the same path iff they lower-case alike |
| WordPressPage.Behaviour | inc/blueprints/generate/wordpress/page.js:19-27 | refused with no write if the page exists; fails without writing if `src/pages` is missing; otherwise writes exactly that one file; existing files are kept |
| WordPressPage.RunTwice | inc/blueprints/generate/wordpress/page.js:19-22 | generating the same page again after a success is refused with AlreadyExists of the page and writes nothing; after a failure it fails the same way |
| WordPressPage.CaseInsensitive | inc/blueprints/generate/wordpress/page.js:7 | names that lower-case alike generate the same |
| WordPressPage.Generate | inc/blueprints/generate/wordpress/page.js:7-27 | the disk's result, files and write log are those of `Run`, and its directories are unchanged |

## Left out

- Console and `chalk` output are not modelled. This includes the error
  texts, the success lines and the `[n/total]` progress prefix. They do not
  affect the files or the exit status.
- `path.resolve` and `process.cwd()` are not modelled. Paths are relative
  strings joined with `/`. A name containing `..`, `//`, a leading `/` or a
  trailing `/` is not normalised the way `path.resolve` would normalise it
  (`foo/` gives paths holding `//`).
- `Names.ToLower`: only ASCII letters are lower-cased, because Unicode case
  mapping is not modelled.
- `titleCase` and `snakeCase` are parameters. Their internals are not part
  of this model. Only `StaticHtmlComponent.PartialsAgree`,
  `Names.TitleOfHyphenated` and `Names.CardLayoutScenario` assume anything
  of them, and they say what.
- Reading `.artaxrc` is an input (`Dispatcher.Marker`): absent, unparseable,
  or parsed with an optional string `projectType`. JSON parsing and a
  `projectType` of another JSON type are not modelled.
- The common Sass function generator
  (`inc/blueprints/generate/common/scss-function.js`) is not part of this
  model. Neither are the Drupal component, page and mixin generators. They
  appear only as dispatch targets, and `Command.Perform` gives them no
  effect.
- File-system errors other than a missing parent directory for
  `writeFileSync` are not modelled. These are permissions, a target that is
  a directory, and a parent that is a file. `outputFileSync` is taken never
  to fail.
- `process.exit(1)` is modelled as an `Err` result that ends the generator
  before any further step. The ghost `log` on `Disk` records the order of
  writes; it is specification state only.
- The `createJS` parameter of the mixin and Drupal function generators is
  never read. Their models take no such parameter, and the dispatcher never
  passes the flag to them.
- Command-line parsing by `commander` is not modelled: unknown options and
  `--help`. Arguments after the name are ignored, as in the source.
