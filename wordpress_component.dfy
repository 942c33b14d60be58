/** The WordPress component generator
    (inc/blueprints/generate/wordpress/component.js): a Twig partial that
    imports the theme's macros, an empty Sass rule and, with `--js`, a
    JavaScript partial. */
module WordPressComponent {
  import opened Outcomes
  import opened Strings
  import opened FileSystem
  import Names
  import opened Components

  function ScssLines(filename: string): seq<string>
  {
    [ "." + filename + " {",
      "",
      "}",
      "" ]
  }

  /** The Sass partial: an empty rule for the component's class. */
  function ScssContent(filename: string): string
  {
    JoinLines(ScssLines(filename))
  }

  function TwigLines(filename: string): seq<string>
  {
    [ "{% import 'src/macros.twig' as macros %}",
      "",
      "<article class=\"" + filename + "\">",
      "",
      "</article>",
      "" ]
  }

  /** The Twig partial: the macros import and an empty `article` of the
      component's class. */
  function TwigContent(filename: string): string
  {
    JoinLines(TwigLines(filename))
  }

  /** The Sass partial read line by line. */
  lemma ScssShape(filename: string)
    requires NoNewline(filename)
    ensures Lines(ScssContent(filename)) == ["." + filename + " {", "", "}", ""]
  {
    assert forall i | 0 <= i < |ScssLines(filename)| :: NoNewline(ScssLines(filename)[i]);
    LinesOfJoin(ScssLines(filename));
  }

  /** The Twig partial read line by line: it imports the macros and opens an
      `article` of the component's class. */
  lemma TwigShape(filename: string)
    requires NoNewline(filename)
    ensures var ls := Lines(TwigContent(filename));
            && |ls| == 6
            && ls[0] == "{% import 'src/macros.twig' as macros %}"
            && ls[2] == "<article class=\"" + filename + "\">"
  {
    assert Lines(TwigContent(filename)) == TwigLines(filename) by {
      assert forall i | 0 <= i < |TwigLines(filename)| :: NoNewline(TwigLines(filename)[i]);
      LinesOfJoin(TwigLines(filename));
    }
  }

  /** The kinds of partial, in the order the generator writes them: Twig,
      Sass and, with `createJS`, JavaScript. */
  function Kinds(createJS: bool): seq<Ext>
  {
    if createJS then [Twig, Scss, Js] else [Twig, Scss]
  }

  lemma KindsDistinct(createJS: bool)
    ensures DistinctKinds(Kinds(createJS))
  {
  }

  /** The contents of the partials, in the same order. */
  function Contents(genName: string, createJS: bool): (cs: seq<string>)
    ensures |cs| == |Kinds(createJS)|
  {
    var filename := Names.FileName(genName);
    var twig := TwigContent(filename);
    var scss := ScssContent(filename);
    if createJS then [twig, scss, JsContent] else [twig, scss]
  }

  /** The files the generator plans, in the order it writes them. */
  function Plan(genNameDirty: string, createJS: bool): seq<Write>
  {
    var genName := Names.ToLower(genNameDirty);
    Partials(genName, Kinds(createJS), Contents(genName, createJS))
  }

  /** What running the generator does to `files` and `dirs`. */
  function Run(files: Files, dirs: set<string>, genNameDirty: string, createJS: bool): Effect
  {
    Create(files, dirs, [Dir(Names.ToLower(genNameDirty))], Plan(genNameDirty, createJS), OutputFileSync)
  }

  /** Two files, or three with `createJS`, at distinct paths directly in the
      component's directory, with the extensions in the order written. */
  lemma {:induction false} PlanShape(genNameDirty: string, createJS: bool)
    ensures var plan := Plan(genNameDirty, createJS);
            var genName := Names.ToLower(genNameDirty);
            && |plan| == (if createJS then 3 else 2)
            && plan[0] == Write(Base(genName) + ".twig", TwigContent(Names.FileName(genName)))
            && plan[1] == Write(Base(genName) + ".scss", ScssContent(Names.FileName(genName)))
            && (createJS ==> plan[2] == Write(Base(genName) + ".js", JsContent))
            && Distinct(Paths(plan))
            && forall i | 0 <= i < |plan| :: Parent(plan[i].path) == Dir(genName) && Guards(Dir(genName), plan[i].path)
  {
    var genName := Names.ToLower(genNameDirty);
    KindsDistinct(createJS);
    PartialsShape(genName, Kinds(createJS), Contents(genName, createJS));
  }

  /** The generator refuses, writing nothing, when the component's directory
      exists; otherwise it writes every planned file, which creates the
      directory, adds exactly those files and leaves every other file as it
      was. */
  lemma {:induction false} Behaviour(files: Files, dirs: set<string>, genNameDirty: string, createJS: bool)
    ensures var e := Run(files, dirs, genNameDirty, createJS);
            var d := Dir(Names.ToLower(genNameDirty));
            var after := Apply(files, e.writes);
            && (PathExists(files, dirs, d) ==> e == Effect(Err(AlreadyExists(d)), []))
            && (!PathExists(files, dirs, d) ==>
                  && e == Effect(Ok(()), Plan(genNameDirty, createJS))
                  && IsDirectory(after, dirs, d))
            && after.Keys == files.Keys + (set i | 0 <= i < |e.writes| :: e.writes[i].path)
            && (forall p | p in files :: after[p] == files[p])
            && (forall i | 0 <= i < |e.writes| :: after[e.writes[i].path] == e.writes[i].content)
  {
    var plan := Plan(genNameDirty, createJS);
    var d := Dir(Names.ToLower(genNameDirty));
    PlanShape(genNameDirty, createJS);
    assert forall i | 0 <= i < |plan| :: Guards([d][0], plan[i].path);
    CreateOnlyAdds(files, dirs, [d], plan, OutputFileSync);
    CreateOutput(files, dirs, d, plan);
    if !PathExists(files, dirs, d) {
      PartialInDir(Names.ToLower(genNameDirty), Twig, plan[0].content);
      WrittenComponentExists(files, dirs, Names.ToLower(genNameDirty), plan);
    }
  }

  /** Generating the same component again is always refused, writing
      nothing, because its directory exists: `outputFileSync` either wrote
      every partial or the first run was refused for the same reason. */
  lemma {:induction false} RunTwice(files: Files, dirs: set<string>, genNameDirty: string, createJS: bool)
    ensures var e1 := Run(files, dirs, genNameDirty, createJS);
            var e2 := Run(Apply(files, e1.writes), dirs, genNameDirty, createJS);
            e2 == Effect(Err(AlreadyExists(Dir(Names.ToLower(genNameDirty)))), [])
  {
    var plan := Plan(genNameDirty, createJS);
    var d := Dir(Names.ToLower(genNameDirty));
    PlanShape(genNameDirty, createJS);
    assert forall i | 0 <= i < |plan| :: Guards([d][0], plan[i].path);
    RepeatRefused(files, dirs, [d], plan, OutputFileSync);
    CreateOutput(files, dirs, d, plan);
  }

  /** The raw name only matters lower-cased. */
  lemma CaseInsensitive(files: Files, dirs: set<string>, genNameDirty: string, createJS: bool)
    ensures Run(files, dirs, genNameDirty, createJS) == Run(files, dirs, Names.ToLower(genNameDirty), createJS)
  {
    Names.ToLowerIdempotent(genNameDirty);
  }

  /** The Twig partial and the Sass rule are for the same class, the one
      named after the component's file. */
  lemma {:induction false} PartialsAgree(genNameDirty: string, createJS: bool)
    requires NoNewline(genNameDirty)
    ensures var plan := Plan(genNameDirty, createJS);
            var filename := Names.FileName(Names.ToLower(genNameDirty));
            var twig := Lines(plan[0].content);
            var scss := Lines(plan[1].content);
            && |twig| == 6 && |scss| == 4
            && twig[2] == "<article class=\"" + filename + "\">"
            && scss[0] == "." + filename + " {"
  {
    var filename := Names.FileName(Names.ToLower(genNameDirty));
    PlanShape(genNameDirty, createJS);
    Names.NoNewlineKept(genNameDirty);
    TwigShape(filename);
    ScssShape(filename);
  }

  /** The planned writes, one by one. */
  lemma PlanElements(genNameDirty: string, createJS: bool)
    ensures var genName := Names.ToLower(genNameDirty);
            var filename := Names.FileName(genName);
            var plan := Plan(genNameDirty, createJS);
            && |plan| == (if createJS then 3 else 2)
            && plan[0] == Write(Base(genName) + ".twig", TwigContent(filename))
            && plan[1] == Write(Base(genName) + ".scss", ScssContent(filename))
            && (createJS ==> plan[2] == Write(Base(genName) + ".js", JsContent))
  {
  }

  /** The generator as the source runs it: refuse when the component's
      directory exists, then write each partial with `outputFileSync`. */
  method Generate(disk: Disk, genNameDirty: string, createJS: bool) returns (r: Result<()>)
    modifies disk
    ensures var e := Run(old(disk.files), old(disk.dirs), genNameDirty, createJS);
            && r == e.result
            && disk.files == Apply(old(disk.files), e.writes)
            && disk.log == old(disk.log) + Paths(e.writes)
    ensures disk.dirs == old(disk.dirs)
  {
    var genName := Names.ToLower(genNameDirty);
    var filename := Names.FileName(genName);
    var createPath := Base(genName);
    var scssContent := ScssContent(filename);
    var twigContent := TwigContent(filename);
    ghost var plan := Plan(genNameDirty, createJS);
    CreateOutput(disk.files, disk.dirs, Dir(genName), plan);
    if disk.Exists(Dir(genName)) {
      return Err(AlreadyExists(Dir(genName)));
    }
    PlanElements(genNameDirty, createJS);
    if createJS {
      ApplyTriple(disk.files, plan);
    } else {
      ApplyPair(disk.files, plan[0], plan[1]);
      assert plan == [plan[0], plan[1]];
    }
    LogOfThree(disk.log, plan[0].path, plan[1].path, createPath + ".js");
    disk.OutputFile(createPath + ".twig", twigContent);
    disk.OutputFile(createPath + ".scss", scssContent);
    if createJS {
      disk.OutputFile(createPath + ".js", JsContent);
    }
    return Ok(());
  }
}
