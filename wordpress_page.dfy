/** The WordPress page generator (inc/blueprints/generate/wordpress/page.js). */
module WordPressPage {
  import opened Outcomes
  import opened Strings
  import opened FileSystem
  import Names

  const PagesDir := "src/pages"

  /** The page template for `genName`. */
  function Target(genName: string): string
  {
    PagesDir + "/" + genName + ".twig"
  }

  const ContentLines: seq<string> :=
    [ "{% extends \"base.twig\" %}",
      "",
      "{% block content %}",
      "  <h1>{{ post.title }}</h1>",
      "{% endblock %}",
      "" ]

  /** A page that extends the theme's base template and shows the post
      title; it does not mention the name. */
  const Content: string := JoinLines(ContentLines)

  /** The content read line by line. */
  lemma ContentShape()
    ensures var ls := Lines(Content);
            && |ls| == 6
            && ls[0] == "{% extends \"base.twig\" %}"
            && ls[3] == "  <h1>{{ post.title }}</h1>"
  {
    assert forall i | 0 <= i < |ContentLines| :: NoNewline(ContentLines[i]);
    LinesOfJoin(ContentLines);
  }

  /** The single write the generator plans. */
  function Plan(genNameDirty: string): (ws: seq<Write>)
    ensures |ws| == 1 && ws[0].content == Content
  {
    [Write(Target(Names.ToLower(genNameDirty)), Content)]
  }

  /** What running the generator does to `files` and `dirs`. */
  function Run(files: Files, dirs: set<string>, genNameDirty: string): Effect
  {
    Create(files, dirs, [Target(Names.ToLower(genNameDirty))], Plan(genNameDirty), WriteFileSync)
  }

  /** The generator refuses, writing nothing, when the page exists; it
      writes exactly the one page when it does not and its directory does;
      it fails without writing when the directory is missing; and it never
      changes a file that was there. */
  lemma {:induction false} Behaviour(files: Files, dirs: set<string>, genNameDirty: string)
    ensures var e := Run(files, dirs, genNameDirty);
            var t := Target(Names.ToLower(genNameDirty));
            && (PathExists(files, dirs, t) ==> e == Effect(Err(AlreadyExists(t)), []))
            && (!PathExists(files, dirs, t) && IsDirectory(files, dirs, Parent(t)) ==>
                  e == Effect(Ok(()), Plan(genNameDirty)))
            && (!PathExists(files, dirs, t) && !IsDirectory(files, dirs, Parent(t)) ==>
                  e == Effect(Err(WriteFailed(t)), []))
            && |e.writes| <= 1
            && forall p | p in files :: p in Apply(files, e.writes) && Apply(files, e.writes)[p] == files[p]
  {
    CreateSingle(files, dirs, Plan(genNameDirty)[0]);
  }

  /** Pages for two names differ only in where they go. */
  lemma ContentIndependentOfName(n1: string, n2: string)
    ensures Plan(n1)[0].content == Plan(n2)[0].content
    ensures Plan(n1)[0].path == Plan(n2)[0].path <==> Names.ToLower(n1) == Names.ToLower(n2)
  {
    var g1, g2 := Names.ToLower(n1), Names.ToLower(n2);
    if Plan(n1)[0].path == Plan(n2)[0].path {
      assert Target(g1) == PagesDir + "/" + (g1 + ".twig");
      assert Target(g2) == PagesDir + "/" + (g2 + ".twig");
      AppendCancel(PagesDir + "/", g1 + ".twig", g2 + ".twig");
      assert |g1| == |g2|;
      assert (g1 + ".twig")[..|g1|] == g1;
      assert (g2 + ".twig")[..|g2|] == g2;
    }
  }

  /** Generating the same page again fails and writes nothing: after a run
      that wrote it, because it now exists; after a run that failed, with
      the same failure. */
  lemma {:induction false} RunTwice(files: Files, dirs: set<string>, genNameDirty: string)
    ensures var e1 := Run(files, dirs, genNameDirty);
            var e2 := Run(Apply(files, e1.writes), dirs, genNameDirty);
            && e2.result.Err? && e2.writes == []
            && (e1.result.Ok? ==> e2 == Effect(Err(AlreadyExists(Target(Names.ToLower(genNameDirty)))), []))
            && (e1.result.Err? ==> e2 == e1)
  {
    Behaviour(files, dirs, genNameDirty);
    var plan := Plan(genNameDirty);
    assert Guards([Target(Names.ToLower(genNameDirty))][0], plan[0].path);
    RepeatRefused(files, dirs, [Target(Names.ToLower(genNameDirty))], plan, WriteFileSync);
  }

  /** The name is used lower-cased only: names that lower-case alike
      generate the same. */
  lemma CaseInsensitive(files: Files, dirs: set<string>, genNameDirty: string)
    ensures Run(files, dirs, genNameDirty) == Run(files, dirs, Names.ToLower(genNameDirty))
  {
    Names.ToLowerIdempotent(genNameDirty);
  }

  /** The generator as the source runs it: build the path, check that the
      page does not exist, write the fixed content. */
  method Generate(disk: Disk, genNameDirty: string) returns (r: Result<()>)
    modifies disk
    ensures var e := Run(old(disk.files), old(disk.dirs), genNameDirty);
            && r == e.result
            && disk.files == Apply(old(disk.files), e.writes)
            && disk.log == old(disk.log) + Paths(e.writes)
    ensures disk.dirs == old(disk.dirs)
  {
    var genName := Names.ToLower(genNameDirty);
    var genPath := Target(genName);
    if disk.Exists(genPath) {
      return Err(AlreadyExists(genPath));
    }
    var ok := disk.WriteFile(genPath, Content);
    if !ok {
      return Err(WriteFailed(genPath));
    }
    return Ok(());
  }
}
