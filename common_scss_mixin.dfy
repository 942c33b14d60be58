/** The Sass mixin generator (inc/blueprints/generate/common/scss-mixin.js),
    used by Static HTML and WordPress projects. */
module CommonScssMixin {
  import opened Outcomes
  import opened Strings
  import opened FileSystem
  import Names

  const MixinsDir := "src/global-scss/helpers/mixins"

  /** The mixin partial for `genName`. */
  function Target(genName: string): string
  {
    MixinsDir + "/_" + genName + ".scss"
  }

  function ContentLines(genName: string, properTitle: string): seq<string>
  {
    [ "// " + properTitle,
      "//",
      "// Mixin description",
      "//",
      "// $param  = null - Parameter description",
      "//",
      "// Definition:",
      "// @mixin " + genName + "($param: null) {",
      "//",
      "// }",
      "//",
      "// Usage:",
      "// .sample {",
      "//   @include " + genName + ";",
      "// }",
      "//",
      "// Compiled:",
      "// .sample {",
      "//",
      "// }",
      "//",
      "// Styleguide Sass Mixins." + properTitle,
      "@mixin " + genName + "($param: null) {",
      "",
      "}",
      "" ]
  }

  /** The living-style-guide comment block followed by an empty mixin. */
  function Content(genName: string, properTitle: string): string
  {
    JoinLines(ContentLines(genName, properTitle))
  }

  /** The content read line by line: the title heads the comment, the usage
      example includes the mixin, the style-guide section is "Sass Mixins"
      and the file ends with the mixin definition. */
  lemma ContentShape(genName: string, properTitle: string)
    requires NoNewline(genName) && NoNewline(properTitle)
    ensures var ls := Lines(Content(genName, properTitle));
            && |ls| == 26
            && ls[0] == "// " + properTitle
            && ls[7] == "// @mixin " + genName + "($param: null) {"
            && ls[13] == "//   @include " + genName + ";"
            && ls[21] == "// Styleguide Sass Mixins." + properTitle
            && ls[22] == "@mixin " + genName + "($param: null) {"
  {
    var ls := ContentLines(genName, properTitle);
    assert Lines(Content(genName, properTitle)) == ls by {
      SingleLines(genName, properTitle);
      LinesOfJoin(ls);
    }
  }

  lemma SingleLines(genName: string, properTitle: string)
    requires NoNewline(genName) && NoNewline(properTitle)
    ensures forall i | 0 <= i < |ContentLines(genName, properTitle)| :: NoNewline(ContentLines(genName, properTitle)[i])
  {
  }

  /** The single write the generator plans. */
  function Plan(genNameDirty: string, titleCase: string -> string): seq<Write>
  {
    var genName := Names.ToLower(genNameDirty);
    [Write(Target(genName), Content(genName, Names.ProperTitle(titleCase, genName)))]
  }

  /** What running the generator does to `files` and `dirs`. */
  function Run(files: Files, dirs: set<string>, genNameDirty: string, titleCase: string -> string): Effect
  {
    Create(files, dirs, [Target(Names.ToLower(genNameDirty))], Plan(genNameDirty, titleCase), WriteFileSync)
  }

  /** The generator refuses, writing nothing, when the partial exists; it
      writes exactly the one partial when it does not and its directory does;
      it fails without writing when the directory is missing; and it never
      changes a file that was there. */
  lemma {:induction false} Behaviour(files: Files, dirs: set<string>, genNameDirty: string, titleCase: string -> string)
    ensures var e := Run(files, dirs, genNameDirty, titleCase);
            var t := Target(Names.ToLower(genNameDirty));
            && (PathExists(files, dirs, t) ==> e == Effect(Err(AlreadyExists(t)), []))
            && (!PathExists(files, dirs, t) && IsDirectory(files, dirs, Parent(t)) ==>
                  e == Effect(Ok(()), Plan(genNameDirty, titleCase)))
            && (!PathExists(files, dirs, t) && !IsDirectory(files, dirs, Parent(t)) ==>
                  e == Effect(Err(WriteFailed(t)), []))
            && |e.writes| <= 1
            && forall p | p in files :: p in Apply(files, e.writes) && Apply(files, e.writes)[p] == files[p]
  {
    CreateSingle(files, dirs, Plan(genNameDirty, titleCase)[0]);
  }

  /** For a name without a slash the partial goes straight into the mixins
      directory. */
  lemma TargetInMixinsDir(genName: string)
    requires '/' !in genName
    ensures Parent(Target(genName)) == MixinsDir
  {
    assert Target(genName) == MixinsDir + "/" + ("_" + genName + ".scss");
    ParentOfChild(MixinsDir, "_" + genName + ".scss");
  }

  /** Generating the same mixin again fails and writes nothing: after a run
      that wrote it, because it now exists; after a run that failed, with
      the same failure. */
  lemma {:induction false} RunTwice(files: Files, dirs: set<string>, genNameDirty: string, titleCase: string -> string)
    ensures var e1 := Run(files, dirs, genNameDirty, titleCase);
            var e2 := Run(Apply(files, e1.writes), dirs, genNameDirty, titleCase);
            && e2.result.Err? && e2.writes == []
            && (e1.result.Ok? ==> e2 == Effect(Err(AlreadyExists(Target(Names.ToLower(genNameDirty)))), []))
            && (e1.result.Err? ==> e2 == e1)
  {
    Behaviour(files, dirs, genNameDirty, titleCase);
    var plan := Plan(genNameDirty, titleCase);
    assert Guards([Target(Names.ToLower(genNameDirty))][0], plan[0].path);
    RepeatRefused(files, dirs, [Target(Names.ToLower(genNameDirty))], plan, WriteFileSync);
  }

  /** The raw name only matters lower-cased: names that differ in case give
      the same file with the same content. */
  lemma CaseInsensitive(files: Files, dirs: set<string>, genNameDirty: string, titleCase: string -> string)
    ensures Run(files, dirs, genNameDirty, titleCase) ==
            Run(files, dirs, Names.ToLower(genNameDirty), titleCase)
  {
    Names.ToLowerIdempotent(genNameDirty);
  }

  /** The generator as the source runs it: build the name, title, path and
      content, check that the partial does not exist, write it. */
  method Generate(disk: Disk, genNameDirty: string, titleCase: string -> string) returns (r: Result<()>)
    modifies disk
    ensures var e := Run(old(disk.files), old(disk.dirs), genNameDirty, titleCase);
            && r == e.result
            && disk.files == Apply(old(disk.files), e.writes)
            && disk.log == old(disk.log) + Paths(e.writes)
    ensures disk.dirs == old(disk.dirs)
  {
    var genName := Names.ToLower(genNameDirty);
    var properTitle := Names.ProperTitle(titleCase, genName);
    var genPath := Target(genName);
    var content := Content(genName, properTitle);
    if disk.Exists(genPath) {
      return Err(AlreadyExists(genPath));
    }
    var ok := disk.WriteFile(genPath, content);
    if !ok {
      return Err(WriteFailed(genPath));
    }
    return Ok(());
  }
}
