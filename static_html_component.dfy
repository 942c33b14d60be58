/** The Static HTML component generator
    (inc/blueprints/generate/static-html/component.js): a Twig partial, a
    Sass partial with its living-style-guide comment, a JSON data file and,
    with `--js`, a JavaScript partial. */
module StaticHtmlComponent {
  import opened Outcomes
  import opened Strings
  import opened FileSystem
  import Names
  import opened Components

  function ScssLines(filename: string, properTitle: string): seq<string>
  {
    [ "// " + properTitle,
      "//",
      "// .-modifier - Modifier description",
      "//",
      "// Markup: " + filename + ".twig",
      "//",
      "// Styleguide Components." + properTitle,
      "." + filename + " {",
      "",
      "}",
      "" ]
  }

  /** The Sass partial: a style-guide comment and an empty rule for the
      component's class. */
  function ScssContent(filename: string, properTitle: string): string
  {
    JoinLines(ScssLines(filename, properTitle))
  }

  function TwigLines(genName: string, filename: string, snakeFileName: string): seq<string>
  {
    [ "{% set data = " + snakeFileName + " %}",
      "",
      "<!-- components/" + genName + "/" + filename + ".twig -->",
      "<article class=\"" + filename + "\">",
      "",
      "</article>",
      "" ]
  }

  /** The Twig partial: it binds the component's data, names its own file
      and holds an empty `article` of the component's class. */
  function TwigContent(genName: string, filename: string, snakeFileName: string): string
  {
    JoinLines(TwigLines(genName, filename, snakeFileName))
  }

  function JsonLines(snakeFileName: string): seq<string>
  {
    [ "{",
      "  \"" + snakeFileName + "\": {",
      "",
      "  }",
      "}" ]
  }

  /** The JSON data file: one empty object under the component's snake-case
      name, with no newline at the end. */
  function JsonContent(snakeFileName: string): string
  {
    JoinLines(JsonLines(snakeFileName))
  }

  lemma ScssSingleLines(filename: string, properTitle: string)
    requires NoNewline(filename) && NoNewline(properTitle)
    ensures forall i | 0 <= i < |ScssLines(filename, properTitle)| :: NoNewline(ScssLines(filename, properTitle)[i])
  {
  }

  /** The Sass partial read line by line: the title heads the comment, the
      markup is the component's Twig file, the style-guide section is
      "Components" and the rule is for the component's class. */
  lemma ScssShape(filename: string, properTitle: string)
    requires NoNewline(filename) && NoNewline(properTitle)
    ensures var ls := Lines(ScssContent(filename, properTitle));
            && |ls| == 11
            && ls[0] == "// " + properTitle
            && ls[4] == "// Markup: " + filename + ".twig"
            && ls[6] == "// Styleguide Components." + properTitle
            && ls[7] == "." + filename + " {"
  {
    assert Lines(ScssContent(filename, properTitle)) == ScssLines(filename, properTitle) by {
      ScssSingleLines(filename, properTitle);
      LinesOfJoin(ScssLines(filename, properTitle));
    }
  }

  lemma TwigSingleLines(genName: string, filename: string, snakeFileName: string)
    requires NoNewline(genName) && NoNewline(filename) && NoNewline(snakeFileName)
    ensures forall i | 0 <= i < |TwigLines(genName, filename, snakeFileName)| :: NoNewline(TwigLines(genName, filename, snakeFileName)[i])
  {
  }

  /** The Twig partial read line by line: it binds `data`, names its own
      path below `src/` and opens an `article` of the component's class. */
  lemma TwigShape(genName: string, filename: string, snakeFileName: string)
    requires NoNewline(genName) && NoNewline(filename) && NoNewline(snakeFileName)
    ensures var ls := Lines(TwigContent(genName, filename, snakeFileName));
            && |ls| == 7
            && ls[0] == "{% set data = " + snakeFileName + " %}"
            && ls[2] == "<!-- " + ("components/" + genName + "/" + filename + ".twig") + " -->"
            && ls[3] == "<article class=\"" + filename + "\">"
  {
    assert Lines(TwigContent(genName, filename, snakeFileName)) == TwigLines(genName, filename, snakeFileName) by {
      TwigSingleLines(genName, filename, snakeFileName);
      LinesOfJoin(TwigLines(genName, filename, snakeFileName));
    }
    assert "<!-- components/" == "<!-- " + "components/";
  }

  /** The JSON file read line by line: one key, the snake-case name, and a
      closing brace with no newline after it. */
  lemma JsonShape(snakeFileName: string)
    requires NoNewline(snakeFileName)
    ensures var ls := Lines(JsonContent(snakeFileName));
            && |ls| == 5
            && ls[1] == "  \"" + snakeFileName + "\": {"
            && ls[4] == "}"
  {
    assert Lines(JsonContent(snakeFileName)) == JsonLines(snakeFileName) by {
      assert forall i | 0 <= i < |JsonLines(snakeFileName)| :: NoNewline(JsonLines(snakeFileName)[i]);
      LinesOfJoin(JsonLines(snakeFileName));
    }
  }

  /** The kinds of partial, in the order the generator writes them: Twig,
      Sass, JSON and, with `createJS`, JavaScript. */
  function Kinds(createJS: bool): seq<Ext>
  {
    if createJS then [Twig, Scss, Json, Js] else [Twig, Scss, Json]
  }

  lemma KindsDistinct(createJS: bool)
    ensures DistinctKinds(Kinds(createJS))
  {
  }

  /** The contents of the partials, in the same order. */
  function Contents(genName: string, createJS: bool, titleCase: string -> string, snakeCase: string -> string): (cs: seq<string>)
    ensures |cs| == |Kinds(createJS)|
  {
    var filename := Names.FileName(genName);
    var twig := TwigContent(genName, filename, snakeCase(filename));
    var scss := ScssContent(filename, Names.ProperTitle(titleCase, filename));
    var json := JsonContent(snakeCase(filename));
    if createJS then [twig, scss, json, JsContent] else [twig, scss, json]
  }

  /** The files the generator plans, in the order it writes them. */
  function Plan(genNameDirty: string, createJS: bool, titleCase: string -> string, snakeCase: string -> string): seq<Write>
  {
    var genName := Names.ToLower(genNameDirty);
    Partials(genName, Kinds(createJS), Contents(genName, createJS, titleCase, snakeCase))
  }

  /** What running the generator does to `files` and `dirs`. */
  function Run(files: Files, dirs: set<string>, genNameDirty: string, createJS: bool,
               titleCase: string -> string, snakeCase: string -> string): Effect
  {
    Create(files, dirs, [Dir(Names.ToLower(genNameDirty))], Plan(genNameDirty, createJS, titleCase, snakeCase), OutputFileSync)
  }

  /** Three files, or four with `createJS`, at distinct paths directly in the
      component's directory, with the extensions in the order written. */
  lemma {:induction false} PlanShape(genNameDirty: string, createJS: bool, titleCase: string -> string, snakeCase: string -> string)
    ensures var plan := Plan(genNameDirty, createJS, titleCase, snakeCase);
            var genName := Names.ToLower(genNameDirty);
            && |plan| == (if createJS then 4 else 3)
            && plan[0].path == Base(genName) + ".twig"
            && plan[1].path == Base(genName) + ".scss"
            && plan[2].path == Base(genName) + ".json"
            && (createJS ==> plan[3] == Write(Base(genName) + ".js", JsContent))
            && Distinct(Paths(plan))
            && forall i | 0 <= i < |plan| :: Parent(plan[i].path) == Dir(genName) && Guards(Dir(genName), plan[i].path)
  {
    var genName := Names.ToLower(genNameDirty);
    KindsDistinct(createJS);
    PartialsShape(genName, Kinds(createJS), Contents(genName, createJS, titleCase, snakeCase));
  }

  /** The generator refuses, writing nothing, when the component's directory
      exists; otherwise it writes every planned file, which creates the
      directory, adds exactly those files and leaves every other file as it
      was. */
  lemma {:induction false} Behaviour(files: Files, dirs: set<string>, genNameDirty: string, createJS: bool,
                                     titleCase: string -> string, snakeCase: string -> string)
    ensures var e := Run(files, dirs, genNameDirty, createJS, titleCase, snakeCase);
            var d := Dir(Names.ToLower(genNameDirty));
            var after := Apply(files, e.writes);
            && (PathExists(files, dirs, d) ==> e == Effect(Err(AlreadyExists(d)), []))
            && (!PathExists(files, dirs, d) ==>
                  && e == Effect(Ok(()), Plan(genNameDirty, createJS, titleCase, snakeCase))
                  && IsDirectory(after, dirs, d))
            && after.Keys == files.Keys + (set i | 0 <= i < |e.writes| :: e.writes[i].path)
            && (forall p | p in files :: after[p] == files[p])
            && (forall i | 0 <= i < |e.writes| :: after[e.writes[i].path] == e.writes[i].content)
  {
    var plan := Plan(genNameDirty, createJS, titleCase, snakeCase);
    var d := Dir(Names.ToLower(genNameDirty));
    PlanShape(genNameDirty, createJS, titleCase, snakeCase);
    assert forall i | 0 <= i < |plan| :: Guards([d][0], plan[i].path);
    CreateOnlyAdds(files, dirs, [d], plan, OutputFileSync);
    var e := Run(files, dirs, genNameDirty, createJS, titleCase, snakeCase);
    if !PathExists(files, dirs, d) {
      assert e.writes == plan;
      PartialInDir(Names.ToLower(genNameDirty), Twig, plan[0].content);
      WrittenComponentExists(files, dirs, Names.ToLower(genNameDirty), e.writes);
    }
  }

  /** Generating the same component again is always refused, writing
      nothing, because its directory exists: `outputFileSync` either wrote
      every partial or the first run was refused for the same reason. */
  lemma {:induction false} RunTwice(files: Files, dirs: set<string>, genNameDirty: string, createJS: bool,
                                    titleCase: string -> string, snakeCase: string -> string)
    ensures var e1 := Run(files, dirs, genNameDirty, createJS, titleCase, snakeCase);
            var e2 := Run(Apply(files, e1.writes), dirs, genNameDirty, createJS, titleCase, snakeCase);
            e2 == Effect(Err(AlreadyExists(Dir(Names.ToLower(genNameDirty)))), [])
  {
    var plan := Plan(genNameDirty, createJS, titleCase, snakeCase);
    var d := Dir(Names.ToLower(genNameDirty));
    PlanShape(genNameDirty, createJS, titleCase, snakeCase);
    assert forall i | 0 <= i < |plan| :: Guards([d][0], plan[i].path);
    RepeatRefused(files, dirs, [d], plan, OutputFileSync);
    CreateOutput(files, dirs, d, plan);
  }

  /** The raw name only matters lower-cased. */
  lemma CaseInsensitive(files: Files, dirs: set<string>, genNameDirty: string, createJS: bool,
                        titleCase: string -> string, snakeCase: string -> string)
    ensures Run(files, dirs, genNameDirty, createJS, titleCase, snakeCase) ==
            Run(files, dirs, Names.ToLower(genNameDirty), createJS, titleCase, snakeCase)
  {
    Names.ToLowerIdempotent(genNameDirty);
  }

  /** The partials agree with each other: the Twig partial binds the same
      snake-case name the JSON file defines, it names its own path under
      `src/`, and the Sass comment points at it as its markup. */
  lemma {:induction false} PartialsAgree(genNameDirty: string, createJS: bool, titleCase: string -> string, snakeCase: string -> string)
    requires NoNewline(genNameDirty)
    requires NoNewline(Names.ProperTitle(titleCase, Names.FileName(Names.ToLower(genNameDirty))))
    requires NoNewline(snakeCase(Names.FileName(Names.ToLower(genNameDirty))))
    ensures var plan := Plan(genNameDirty, createJS, titleCase, snakeCase);
            var snake := snakeCase(Names.FileName(Names.ToLower(genNameDirty)));
            var twig := Lines(plan[0].content);
            var json := Lines(plan[2].content);
            && |twig| == 7 && |json| == 5
            && twig[0] == "{% set data = " + snake + " %}"
            && json[1] == "  \"" + snake + "\": {"
    ensures var plan := Plan(genNameDirty, createJS, titleCase, snakeCase);
            var genName := Names.ToLower(genNameDirty);
            var filename := Names.FileName(genName);
            var twig := Lines(plan[0].content);
            var scss := Lines(plan[1].content);
            var rel := "components/" + genName + "/" + filename + ".twig";
            && |twig| == 7 && |scss| == 11
            && plan[0].path == "src/" + rel
            && twig[2] == "<!-- " + rel + " -->"
            && scss[4] == "// Markup: " + filename + ".twig"
  {
    var genName := Names.ToLower(genNameDirty);
    var filename := Names.FileName(genName);
    var title := Names.ProperTitle(titleCase, filename);
    var snake := snakeCase(filename);
    var plan := Plan(genNameDirty, createJS, titleCase, snakeCase);
    var cs := Contents(genName, createJS, titleCase, snakeCase);
    assert plan[0].content == cs[0] == TwigContent(genName, filename, snake);
    assert plan[1].content == cs[1] == ScssContent(filename, title);
    assert plan[2].content == cs[2] == JsonContent(snake);
    Names.NoNewlineKept(genNameDirty);
    ScssShape(filename, title);
    TwigShape(genName, filename, snake);
    JsonShape(snake);
    TwigPath(genName);
  }

  /** The Twig partial's path is `src/` followed by the path its comment
      names. */
  lemma TwigPath(genName: string)
    ensures Base(genName) + Suffix(Twig) == "src/" + ("components/" + genName + "/" + Names.FileName(genName) + ".twig")
  {
    var f := Names.FileName(genName);
    ComponentsUnderSrc();
    assert Suffix(Twig) == ".twig";
    ShiftPrefix("src/", "components/", genName, "/", f, ".twig");
  }

  /** The planned writes, one by one. */
  lemma PlanElements(genNameDirty: string, createJS: bool, titleCase: string -> string, snakeCase: string -> string)
    ensures var genName := Names.ToLower(genNameDirty);
            var filename := Names.FileName(genName);
            var plan := Plan(genNameDirty, createJS, titleCase, snakeCase);
            && |plan| == (if createJS then 4 else 3)
            && plan[0] == Write(Base(genName) + ".twig", TwigContent(genName, filename, snakeCase(filename)))
            && plan[1] == Write(Base(genName) + ".scss", ScssContent(filename, Names.ProperTitle(titleCase, filename)))
            && plan[2] == Write(Base(genName) + ".json", JsonContent(snakeCase(filename)))
            && (createJS ==> plan[3] == Write(Base(genName) + ".js", JsContent))
  {
  }

  /** The generator as the source runs it: refuse when the component's
      directory exists, then write each partial with `outputFileSync`. */
  method Generate(disk: Disk, genNameDirty: string, createJS: bool,
                  titleCase: string -> string, snakeCase: string -> string) returns (r: Result<()>)
    modifies disk
    ensures var e := Run(old(disk.files), old(disk.dirs), genNameDirty, createJS, titleCase, snakeCase);
            && r == e.result
            && disk.files == Apply(old(disk.files), e.writes)
            && disk.log == old(disk.log) + Paths(e.writes)
    ensures disk.dirs == old(disk.dirs)
  {
    var genName := Names.ToLower(genNameDirty);
    var filename := Names.FileName(genName);
    var properTitle := Names.ProperTitle(titleCase, filename);
    var snakeFileName := snakeCase(filename);
    var createPath := Base(genName);
    var scssContent := ScssContent(filename, properTitle);
    var twigContent := TwigContent(genName, filename, snakeFileName);
    var jsonContent := JsonContent(snakeFileName);
    ghost var plan := Plan(genNameDirty, createJS, titleCase, snakeCase);
    CreateOutput(disk.files, disk.dirs, Dir(genName), plan);
    if disk.Exists(Dir(genName)) {
      return Err(AlreadyExists(Dir(genName)));
    }
    PlanElements(genNameDirty, createJS, titleCase, snakeCase);
    if createJS {
      ApplyQuad(disk.files, plan);
    } else {
      ApplyTriple(disk.files, plan);
    }
    LogOfFour(disk.log, plan[0].path, plan[1].path, plan[2].path, createPath + ".js");
    disk.OutputFile(createPath + ".twig", twigContent);
    disk.OutputFile(createPath + ".scss", scssContent);
    disk.OutputFile(createPath + ".json", jsonContent);
    if createJS {
      disk.OutputFile(createPath + ".js", JsContent);
    }
    return Ok(());
  }
}
