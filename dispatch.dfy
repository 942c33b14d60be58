/** The `artax generate <kind> <name> [--js]` command: the checks it makes
    before anything is generated and the decision table that picks, from the
    project type recorded in `.artaxrc` and the kind asked for, the one
    generator to run. */
module Dispatcher {
  import opened Outcomes

  /** What the command finds of the project marker `.artaxrc`. */
  datatype Marker =
    | Absent                               // no `.artaxrc` in the working directory
    | Unparseable                          // present, but `readJsonSync` throws
    | Parsed(projectType: Option<string>)  // its `projectType`, when it is a string

  datatype ProjectType = StaticHtml | Drupal | WordPress

  /** Every generator the command can start. */
  datatype Generator =
    | StaticHtmlComponent | StaticHtmlPage
    | CommonMixin | CommonFunction
    | DrupalComponent | DrupalPage | DrupalMixin | DrupalFunction
    | WordPressComponent | WordPressPage | WordPressTemplate

  /** A generator call: which generator, the name it is given and, for the
      component generators only, the `--js` flag as a second argument. */
  datatype Invocation = Invocation(generator: Generator, name: string, createJS: Option<bool>)

  predicate IsComponent(g: Generator)
  {
    g == StaticHtmlComponent || g == DrupalComponent || g == WordPressComponent
  }

  /** The project types the command knows, by the string `.artaxrc` holds. */
  function TypeOf(projectType: Option<string>): (t: Option<ProjectType>)
    ensures t == Some(StaticHtml) <==> projectType == Some("Static HTML")
    ensures t == Some(Drupal) <==> projectType == Some("Drupal")
    ensures t == Some(WordPress) <==> projectType == Some("WordPress")
  {
    match projectType
    case None => None
    case Some(s) =>
      if s == "Static HTML" then Some(StaticHtml)
      else if s == "Drupal" then Some(Drupal)
      else if s == "WordPress" then Some(WordPress)
      else None
  }

  /** The inner `switch (genType)` of one project type. */
  function Select(t: ProjectType, kind: string): Option<Generator>
  {
    match t
    case StaticHtml =>
      if kind == "component" then Some(StaticHtmlComponent)
      else if kind == "page" then Some(StaticHtmlPage)
      else if kind == "mixin" then Some(CommonMixin)
      else if kind == "function" then Some(CommonFunction)
      else None
    case Drupal =>
      if kind == "component" then Some(DrupalComponent)
      else if kind == "page" then Some(DrupalPage)
      else if kind == "mixin" then Some(DrupalMixin)
      else if kind == "function" then Some(DrupalFunction)
      else None
    case WordPress =>
      if kind == "component" then Some(WordPressComponent)
      else if kind == "page" then Some(WordPressPage)
      else if kind == "template" then Some(WordPressTemplate)
      else if kind == "mixin" then Some(CommonMixin)
      else if kind == "function" then Some(CommonFunction)
      else None
  }

  /** A command-line argument JavaScript treats as given: present and not
      the empty string. */
  predicate Given(args: seq<string>, i: nat)
  {
    i < |args| && args[i] != ""
  }

  /** The command: `Ok(Some(call))` when a generator is started, `Ok(None)`
      when the project type is unknown and nothing is generated (exit 0),
      and an error, before any generator runs, otherwise. */
  function Dispatch(marker: Marker, args: seq<string>, js: bool): (r: Result<Option<Invocation>>)
    ensures marker.Absent? ==> r == Err(NotInProject)
    ensures marker.Unparseable? ==> r == Err(MarkerUnreadable)
    ensures marker.Parsed? && !Given(args, 0) ==> r == Err(MissingKind)
    ensures marker.Parsed? && Given(args, 0) && !Given(args, 1) ==> r == Err(MissingName)
    ensures r.Ok? ==> marker.Parsed? && Given(args, 0) && Given(args, 1)
    ensures r.Ok? && r.value.Some? ==>
              && r.value.value.name == args[1]
              && (r.value.value.createJS.Some? <==> IsComponent(r.value.value.generator))
              && (r.value.value.createJS.Some? ==> r.value.value.createJS.value == js)
  {
    if marker.Absent? then Err(NotInProject)
    else if marker.Unparseable? then Err(MarkerUnreadable)
    else if !Given(args, 0) then Err(MissingKind)
    else if !Given(args, 1) then Err(MissingName)
    else
      var kind, name := args[0], args[1];
      match TypeOf(marker.projectType)
      case None => Ok(None)
      case Some(t) =>
        match Select(t, kind)
        case None => Err(InvalidKind(kind))
        case Some(g) => Ok(Some(Invocation(g, name, if IsComponent(g) then Some(js) else None)))
  }

  /** The decision table written out row by row: project type, kind,
      generator. */
  const Table: set<(ProjectType, string, Generator)> :=
    { (StaticHtml, "component", StaticHtmlComponent),
      (StaticHtml, "page", StaticHtmlPage),
      (StaticHtml, "mixin", CommonMixin),
      (StaticHtml, "function", CommonFunction),
      (Drupal, "component", DrupalComponent),
      (Drupal, "page", DrupalPage),
      (Drupal, "mixin", DrupalMixin),
      (Drupal, "function", DrupalFunction),
      (WordPress, "component", WordPressComponent),
      (WordPress, "page", WordPressPage),
      (WordPress, "template", WordPressTemplate),
      (WordPress, "mixin", CommonMixin),
      (WordPress, "function", CommonFunction) }

  /** The switches select exactly the table's rows. */
  lemma SelectMatchesTable(t: ProjectType, kind: string, g: Generator)
    ensures Select(t, kind) == Some(g) <==> (t, kind, g) in Table
  {
  }

  /** No two rows share a project type and a kind, so at most one generator
      is ever selected. */
  lemma TableIsFunctional(t: ProjectType, kind: string, g1: Generator, g2: Generator)
    requires (t, kind, g1) in Table && (t, kind, g2) in Table
    ensures g1 == g2
  {
    SelectMatchesTable(t, kind, g1);
    SelectMatchesTable(t, kind, g2);
  }

  /** With the marker read and both arguments given: a known project type
      starts the generator its table row names, and fails with the kind when
      there is no row; an unknown type starts nothing and does not fail. */
  lemma DispatchByTable(projectType: Option<string>, args: seq<string>, js: bool)
    requires Given(args, 0) && Given(args, 1)
    ensures var r := Dispatch(Parsed(projectType), args, js);
            match TypeOf(projectType)
            case None => r == Ok(None)
            case Some(t) =>
              && (forall g ::
                    (r.Ok? && r.value == Some(Invocation(g, args[1], if IsComponent(g) then Some(js) else None)))
                    <==> (t, args[0], g) in Table)
              && (r == Err(InvalidKind(args[0])) <==> forall g :: (t, args[0], g) !in Table)
              && (r.Ok? || r == Err(InvalidKind(args[0])))
  {
    match TypeOf(projectType)
    case None =>
    case Some(t) =>
      forall g ensures Select(t, args[0]) == Some(g) <==> (t, args[0], g) in Table {
        SelectMatchesTable(t, args[0], g);
      }
  }

  /** The kinds each project type offers: a kind works for a project type
      exactly when it is one of these. */
  function Kinds(t: ProjectType): set<string>
  {
    match t
    case StaticHtml => {"component", "page", "mixin", "function"}
    case Drupal => {"component", "page", "mixin", "function"}
    case WordPress => {"component", "page", "template", "mixin", "function"}
  }

  lemma KindsOffered(t: ProjectType, kind: string)
    ensures Select(t, kind).Some? <==> kind in Kinds(t)
  {
  }

  /** `template` is a WordPress kind only: a Static HTML or Drupal project
      refuses it. */
  lemma TemplateOnlyForWordPress(marker: Marker, args: seq<string>, js: bool)
    requires marker.Parsed? && Given(args, 1) && args[0] == "template"
    ensures var r := Dispatch(marker, args, js);
            && (marker.projectType == Some("WordPress") ==>
                  r == Ok(Some(Invocation(WordPressTemplate, args[1], None))))
            && (marker.projectType == Some("Static HTML") || marker.projectType == Some("Drupal") ==>
                  r == Err(InvalidKind("template")))
  {
  }

  /** Static HTML and WordPress share the common Sass generators; Drupal has
      its own. */
  lemma SassGeneratorsByFamily(t: ProjectType)
    ensures Select(t, "mixin") == Some(if t == Drupal then DrupalMixin else CommonMixin)
    ensures Select(t, "function") == Some(if t == Drupal then DrupalFunction else CommonFunction)
  {
  }

  /** Every generator the command starts belongs to the project type it was
      started for: a Drupal project never runs another family's generator. */
  lemma GeneratorFamily(marker: Marker, args: seq<string>, js: bool)
    ensures var r := Dispatch(marker, args, js);
            r.Ok? && r.value.Some? ==>
              var g := r.value.value.generator;
              && (g in {DrupalComponent, DrupalPage, DrupalMixin, DrupalFunction} <==>
                    marker.projectType == Some("Drupal"))
              && (g in {WordPressComponent, WordPressPage, WordPressTemplate} ==>
                    marker.projectType == Some("WordPress"))
              && (g in {StaticHtmlComponent, StaticHtmlPage} ==>
                    marker.projectType == Some("Static HTML"))
  {
  }

  /** The command ends with status 1 exactly when it fails; an unknown
      project type ends with status 0. */
  lemma ExitStatus(marker: Marker, args: seq<string>, js: bool)
    ensures var r := Dispatch(marker, args, js);
            && (ExitCode(r) == 1 <==> r.Err?)
            && (r == Ok(None) ==> ExitCode(r) == 0)
            && (marker.Parsed? && Given(args, 0) && Given(args, 1) && TypeOf(marker.projectType).None? ==>
                  r == Ok(None))
  {
  }
}
