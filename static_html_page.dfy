/** The Static HTML page generator (inc/blueprints/generate/static-html/page.js). */
module StaticHtmlPage {
  import opened Outcomes
  import opened Strings
  import opened FileSystem
  import Names

  const PagesDir := "src/pages"

  /** The page template for `genName`. */
  function Target(genName: string): string
  {
    PagesDir + "/" + genName + ".twig"
  }

  function ContentLines(genName: string, properTitle: string): seq<string>
  {
    [ "{% extends \"layout.twig\" %}",
      "",
      "{% set page_title = \"" + properTitle + "\" %}",
      "",
      "{% block body %}",
      "  <!-- " + genName + ".twig -->",
      "  <h1>" + properTitle + "</h1>",
      "{% endblock %}",
      "" ]
  }

  /** A page that extends the layout and shows its title. */
  function Content(genName: string, properTitle: string): string
  {
    JoinLines(ContentLines(genName, properTitle))
  }

  lemma SingleLines(genName: string, properTitle: string)
    requires NoNewline(genName) && NoNewline(properTitle)
    ensures forall i | 0 <= i < |ContentLines(genName, properTitle)| :: NoNewline(ContentLines(genName, properTitle)[i])
  {
  }

  /** The content read line by line: it extends `layout.twig`, sets
      `page_title` to the title, names its own file in a comment and shows
      the title as the heading. */
  lemma ContentShape(genName: string, properTitle: string)
    requires NoNewline(genName) && NoNewline(properTitle)
    ensures var ls := Lines(Content(genName, properTitle));
            && |ls| == 9
            && ls[0] == "{% extends \"layout.twig\" %}"
            && ls[2] == "{% set page_title = \"" + properTitle + "\" %}"
            && ls[5] == "  <!-- " + genName + ".twig -->"
            && ls[6] == "  <h1>" + properTitle + "</h1>"
  {
    var ls := ContentLines(genName, properTitle);
    assert Lines(Content(genName, properTitle)) == ls by {
      SingleLines(genName, properTitle);
      LinesOfJoin(ls);
    }
  }

  /** The single write the generator plans. */
  function Plan(genNameDirty: string, titleCase: string -> string): seq<Write>
  {
    var genName := Names.ToLower(genNameDirty);
    [Write(Target(genName), Content(genName, Names.ProperTitle(titleCase, genName)))]
  }

  /** What running the generator does to `files` and `dirs`. */
  function Run(files: Files, dirs: set<string>, genNameDirty: string, titleCase: string -> string): Effect
  {
    Create(files, dirs, [Target(Names.ToLower(genNameDirty))], Plan(genNameDirty, titleCase), WriteFileSync)
  }

  /** The generator refuses, writing nothing, when the page exists; it
      writes exactly the one page when it does not and its directory does;
      it fails without writing when the directory is missing; and it never
      changes a file that was there. */
  lemma {:induction false} Behaviour(files: Files, dirs: set<string>, genNameDirty: string, titleCase: string -> string)
    ensures var e := Run(files, dirs, genNameDirty, titleCase);
            var t := Target(Names.ToLower(genNameDirty));
            && (PathExists(files, dirs, t) ==> e == Effect(Err(AlreadyExists(t)), []))
            && (!PathExists(files, dirs, t) && IsDirectory(files, dirs, Parent(t)) ==>
                  e == Effect(Ok(()), Plan(genNameDirty, titleCase)))
            && (!PathExists(files, dirs, t) && !IsDirectory(files, dirs, Parent(t)) ==>
                  e == Effect(Err(WriteFailed(t)), []))
            && |e.writes| <= 1
            && forall p | p in files :: p in Apply(files, e.writes) && Apply(files, e.writes)[p] == files[p]
  {
    CreateSingle(files, dirs, Plan(genNameDirty, titleCase)[0]);
  }

  /** For a name without a slash the page goes straight into `src/pages`. */
  lemma TargetInPagesDir(genName: string)
    requires '/' !in genName
    ensures Parent(Target(genName)) == PagesDir
  {
    assert Target(genName) == PagesDir + "/" + (genName + ".twig");
    ParentOfChild(PagesDir, genName + ".twig");
  }

  /** Generating the same page again fails and writes nothing: after a run
      that wrote it, because it now exists; after a run that failed, with
      the same failure. */
  lemma {:induction false} RunTwice(files: Files, dirs: set<string>, genNameDirty: string, titleCase: string -> string)
    ensures var e1 := Run(files, dirs, genNameDirty, titleCase);
            var e2 := Run(Apply(files, e1.writes), dirs, genNameDirty, titleCase);
            && e2.result.Err? && e2.writes == []
            && (e1.result.Ok? ==> e2 == Effect(Err(AlreadyExists(Target(Names.ToLower(genNameDirty)))), []))
            && (e1.result.Err? ==> e2 == e1)
  {
    Behaviour(files, dirs, genNameDirty, titleCase);
    var plan := Plan(genNameDirty, titleCase);
    assert Guards([Target(Names.ToLower(genNameDirty))][0], plan[0].path);
    RepeatRefused(files, dirs, [Target(Names.ToLower(genNameDirty))], plan, WriteFileSync);
  }

  /** The raw name only matters lower-cased. */
  lemma CaseInsensitive(files: Files, dirs: set<string>, genNameDirty: string, titleCase: string -> string)
    ensures Run(files, dirs, genNameDirty, titleCase) ==
            Run(files, dirs, Names.ToLower(genNameDirty), titleCase)
  {
    Names.ToLowerIdempotent(genNameDirty);
  }

  /** The generator as the source runs it: build the name, title, path and
      content, check that the page does not exist, write it. */
  method Generate(disk: Disk, genNameDirty: string, titleCase: string -> string) returns (r: Result<()>)
    modifies disk
    ensures var e := Run(old(disk.files), old(disk.dirs), genNameDirty, titleCase);
            && r == e.result
            && disk.files == Apply(old(disk.files), e.writes)
            && disk.log == old(disk.log) + Paths(e.writes)
    ensures disk.dirs == old(disk.dirs)
  {
    var genName := Names.ToLower(genNameDirty);
    var properTitle := Names.ProperTitle(titleCase, genName);
    var genPath := Target(genName);
    var pageContent := Content(genName, properTitle);
    if disk.Exists(genPath) {
      return Err(AlreadyExists(genPath));
    }
    var ok := disk.WriteFile(genPath, pageContent);
    if !ok {
      return Err(WriteFailed(genPath));
    }
    return Ok(());
  }
}
