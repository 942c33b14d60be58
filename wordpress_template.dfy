/** The WordPress page template generator
    (inc/blueprints/generate/wordpress/template.js): a PHP template at the
    theme root that renders a Twig page under `src/pages`. */
module WordPressTemplate {
  import opened Outcomes
  import opened Strings
  import opened FileSystem
  import Names
  import WordPressPage

  /** The PHP template for `genName`, at the theme root. */
  function TemplatePath(genName: string): string
  {
    "template-" + genName + ".php"
  }

  /** The Twig page the template renders: the WordPress page generator's. */
  function PagePath(genName: string): string
  {
    WordPressPage.Target(genName)
  }

  function TemplateLines(genName: string, properTitle: string): seq<string>
  {
    [ "<?php",
      "/**",
      " * Template Name: " + properTitle,
      " */",
      "",
      "$context = Timber::context();",
      "$post = new TimberPost();",
      "$context['post'] = $post;",
      "",
      "Timber::render( 'src/pages/" + genName + ".twig', $context );",
      "" ]
  }

  /** A PHP template named after the title that renders the page. */
  function TemplateContent(genName: string, properTitle: string): string
  {
    JoinLines(TemplateLines(genName, properTitle))
  }

  lemma SingleLines(genName: string, properTitle: string)
    requires NoNewline(genName) && NoNewline(properTitle)
    ensures forall i | 0 <= i < |TemplateLines(genName, properTitle)| :: NoNewline(TemplateLines(genName, properTitle)[i])
  {
  }

  /** The template read line by line: PHP, a `Template Name:` header with
      the title, and a render call for exactly the page this generator
      writes. */
  lemma TemplateShape(genName: string, properTitle: string)
    requires NoNewline(genName) && NoNewline(properTitle)
    ensures var ls := Lines(TemplateContent(genName, properTitle));
            && |ls| == 11
            && ls[0] == "<?php"
            && ls[2] == " * Template Name: " + properTitle
            && ls[9] == "Timber::render( '" + PagePath(genName) + "', $context );"
  {
    var ls := TemplateLines(genName, properTitle);
    assert Lines(TemplateContent(genName, properTitle)) == ls by {
      SingleLines(genName, properTitle);
      LinesOfJoin(ls);
    }
    assert "Timber::render( 'src/pages/" + genName + ".twig', $context );"
        == "Timber::render( '" + PagePath(genName) + "', $context );";
  }

  /** The two writes the generator plans: the template, then the page. */
  function Plan(genNameDirty: string, titleCase: string -> string): seq<Write>
  {
    var genName := Names.ToLower(genNameDirty);
    [ Write(TemplatePath(genName), TemplateContent(genName, Names.ProperTitle(titleCase, genName))),
      Write(PagePath(genName), WordPressPage.Content) ]
  }

  /** The guards, in the order the source tests them. */
  function Guarded(genNameDirty: string): seq<string>
  {
    var genName := Names.ToLower(genNameDirty);
    [TemplatePath(genName), PagePath(genName)]
  }

  /** What running the generator does to `files` and `dirs`. */
  function Run(files: Files, dirs: set<string>, genNameDirty: string, titleCase: string -> string): Effect
  {
    Create(files, dirs, Guarded(genNameDirty), Plan(genNameDirty, titleCase), WriteFileSync)
  }

  /** The template and the page never collide: one starts with `t`, the
      other and its directory with `s`. */
  lemma PathsApart(genName: string)
    ensures TemplatePath(genName) != PagePath(genName)
    ensures Parent(PagePath(genName)) != ""
    ensures !(Parent(PagePath(genName)) + "/" <= TemplatePath(genName))
  {
    var pp := PagePath(genName);
    assert pp[9] == '/';
    assert pp[0] == 's' && TemplatePath(genName)[0] == 't';
  }

  /** Writing the template does not create the page's directory. */
  lemma TemplateLeavesPageDir(files: Files, dirs: set<string>, genName: string, content: string)
    ensures IsDirectory(files[TemplatePath(genName) := content], dirs, Parent(PagePath(genName)))
        <==> IsDirectory(files, dirs, Parent(PagePath(genName)))
  {
    PathsApart(genName);
    WriteElsewhere(files, dirs, Write(TemplatePath(genName), content), Parent(PagePath(genName)));
  }

  /** The five outcomes: refused for the template, refused for the page,
      failed before writing anything, both files written, or the template
      written and the page not, because `src/pages` (or the page's
      directory) is missing. */
  lemma {:induction false} Behaviour(files: Files, dirs: set<string>, genNameDirty: string, titleCase: string -> string)
    ensures var e := Run(files, dirs, genNameDirty, titleCase);
            var plan := Plan(genNameDirty, titleCase);
            var tp := plan[0].path;
            var pp := plan[1].path;
            && (PathExists(files, dirs, tp) ==> e == Effect(Err(AlreadyExists(tp)), []))
            && (!PathExists(files, dirs, tp) && PathExists(files, dirs, pp) ==>
                  e == Effect(Err(AlreadyExists(pp)), []))
            && (!PathExists(files, dirs, tp) && !PathExists(files, dirs, pp) ==>
                  && (!IsDirectory(files, dirs, Parent(tp)) ==> e == Effect(Err(WriteFailed(tp)), []))
                  && (IsDirectory(files, dirs, Parent(tp)) && IsDirectory(files, dirs, Parent(pp)) ==>
                        e == Effect(Ok(()), plan))
                  && (IsDirectory(files, dirs, Parent(tp)) && !IsDirectory(files, dirs, Parent(pp)) ==>
                        e == Effect(Err(WriteFailed(pp)), [plan[0]])))
  {
    var plan := Plan(genNameDirty, titleCase);
    assert Guarded(genNameDirty) == [plan[0].path, plan[1].path];
    TemplateLeavesPageDir(files, dirs, Names.ToLower(genNameDirty), plan[0].content);
    CreatePair(files, dirs, plan[0], plan[1]);
  }

  /** A template that is written is never over a file that was there, and
      whatever the outcome the files that were there keep their contents. */
  lemma NoOverwrite(files: Files, dirs: set<string>, genNameDirty: string, titleCase: string -> string)
    ensures var e := Run(files, dirs, genNameDirty, titleCase);
            var after := Apply(files, e.writes);
            && after.Keys == files.Keys + (set i | 0 <= i < |e.writes| :: e.writes[i].path)
            && (forall p | p in files :: after[p] == files[p])
  {
    var plan := Plan(genNameDirty, titleCase);
    PathsApart(Names.ToLower(genNameDirty));
    assert Run(files, dirs, genNameDirty, titleCase)
        == Create(files, dirs, [plan[0].path, plan[1].path], [plan[0], plan[1]], WriteFileSync);
    CreatePairOnlyAdds(files, dirs, plan[0], plan[1], WriteFileSync);
  }

  /** A name without a slash puts the template at the theme root, where
      writing it cannot fail, and the page straight into `src/pages`. */
  lemma PlacesForPlainName(genName: string)
    requires '/' !in genName
    ensures Parent(TemplatePath(genName)) == ""
    ensures Parent(PagePath(genName)) == WordPressPage.PagesDir
  {
    assert '/' !in TemplatePath(genName);
    assert PagePath(genName) == WordPressPage.PagesDir + "/" + (genName + ".twig");
    ParentOfChild(WordPressPage.PagesDir, genName + ".twig");
  }

  /** Running the generator again, after a success or a half-done run,
      is refused because the template now exists, and writes nothing; after
      a run that wrote nothing, it fails the same way again. */
  lemma {:induction false} RunTwice(files: Files, dirs: set<string>, genNameDirty: string, titleCase: string -> string)
    ensures var e1 := Run(files, dirs, genNameDirty, titleCase);
            var e2 := Run(Apply(files, e1.writes), dirs, genNameDirty, titleCase);
            && e2.result.Err? && e2.writes == []
            && (e1.writes != [] ==> e2 == Effect(Err(AlreadyExists(TemplatePath(Names.ToLower(genNameDirty)))), []))
            && (e1.writes == [] ==> e2 == e1)
  {
    var plan := Plan(genNameDirty, titleCase);
    var guards := Guarded(genNameDirty);
    assert Guards(guards[0], plan[0].path) && Guards(guards[1], plan[1].path);
    RepeatRefused(files, dirs, guards, plan, WriteFileSync);
  }

  /** The name is used lower-cased only: names that lower-case alike
      generate the same. */
  lemma CaseInsensitive(files: Files, dirs: set<string>, genNameDirty: string, titleCase: string -> string)
    ensures Run(files, dirs, genNameDirty, titleCase) == Run(files, dirs, Names.ToLower(genNameDirty), titleCase)
  {
    Names.ToLowerIdempotent(genNameDirty);
  }

  /** The generator as the source runs it: build both paths and the
      template, check both paths, then write the template and the page,
      stopping at the first write that throws. */
  method Generate(disk: Disk, genNameDirty: string, titleCase: string -> string) returns (r: Result<()>)
    modifies disk
    ensures var e := Run(old(disk.files), old(disk.dirs), genNameDirty, titleCase);
            && r == e.result
            && disk.files == Apply(old(disk.files), e.writes)
            && disk.log == old(disk.log) + Paths(e.writes)
    ensures disk.dirs == old(disk.dirs)
  {
    var genName := Names.ToLower(genNameDirty);
    var properTitle := Names.ProperTitle(titleCase, genName);
    var pagePath := PagePath(genName);
    var templatePath := TemplatePath(genName);
    var templateContent := TemplateContent(genName, properTitle);
    var template, page := Write(templatePath, templateContent), Write(pagePath, WordPressPage.Content);
    assert Plan(genNameDirty, titleCase) == [template, page];
    r := CreateTwo(disk, template, page);
  }
}
