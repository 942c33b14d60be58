/** What the two component generators share
    (inc/blueprints/generate/static-html/component.js and
    inc/blueprints/generate/wordpress/component.js): a component named
    `genName` lives in the directory `src/components/<genName>`, and each of
    its partials is `<that directory>/<filename><extension>`, where
    `filename` is `path.basename(genName, path.extname(genName))`. */
module Components {
  import opened Strings
  import opened FileSystem
  import Names

  const ComponentsDir := "src/components"

  /** The components directory lies in `src`: `src/components/` is the
      prefix `src/` followed by `components/`, the form in which the Twig
      partial's comment names its own path. */
  lemma ComponentsUnderSrc()
    ensures ComponentsDir + "/" == "src/" + "components/"
  {
  }

  /** The component's directory, the path whose existence refuses the run. */
  function Dir(genName: string): string
  {
    ComponentsDir + "/" + genName
  }

  /** `createPath`: the directory followed by the file name. */
  function Base(genName: string): string
  {
    Dir(genName) + "/" + Names.FileName(genName)
  }

  /** The kinds of partial `createFile` writes, by extension. */
  datatype Ext = Twig | Scss | Json | Js

  function Suffix(ext: Ext): (x: string)
    ensures |x| > 1 && x[0] == '.' && '/' !in x
  {
    match ext
    case Twig => ".twig"
    case Scss => ".scss"
    case Json => ".json"
    case Js => ".js"
  }

  /** Different kinds of partial have different extensions. */
  lemma SuffixInjective(e1: Ext, e2: Ext)
    requires e1 != e2
    ensures Suffix(e1) != Suffix(e2)
  {
    assert Suffix(Twig)[1] == 't' && Suffix(Scss)[1] == 's' && Suffix(Json)[1] == 'j' && Suffix(Js)[1] == 'j';
    assert |Suffix(Json)| != |Suffix(Js)|;
  }

  /** The file `createFile` writes for a kind of partial. */
  function Partial(genName: string, ext: Ext, content: string): (w: Write)
    ensures w.content == content
  {
    Write(Base(genName) + Suffix(ext), content)
  }

  /** Every partial lies directly in the component's directory. */
  lemma {:induction false} PartialInDir(genName: string, ext: Ext, content: string)
    ensures Dir(genName) + "/" <= Partial(genName, ext, content).path
    ensures Guards(Dir(genName), Partial(genName, ext, content).path)
    ensures Parent(Partial(genName, ext, content).path) == Dir(genName)
  {
    var x := Suffix(ext);
    var p := Partial(genName, ext, content).path;
    assert p == Dir(genName) + "/" + (Names.FileName(genName) + x);
    assert (Dir(genName) + "/" + (Names.FileName(genName) + x))[..|Dir(genName) + "/"|] == Dir(genName) + "/";
    Names.FileNameSplit(genName);
    assert '/' !in Names.FileName(genName) + x;
    ParentOfChild(Dir(genName), Names.FileName(genName) + x);
  }

  /** Partials of different kinds are different files. */
  lemma PartialsApart(genName: string, e1: Ext, c1: string, e2: Ext, c2: string)
    requires e1 != e2
    ensures Partial(genName, e1, c1).path != Partial(genName, e2, c2).path
  {
    SuffixInjective(e1, e2);
    if Base(genName) + Suffix(e1) == Base(genName) + Suffix(e2) {
      AppendCancel(Base(genName), Suffix(e1), Suffix(e2));
    }
  }

  /** The partials of the given kinds with the given contents, in order. */
  function Partials(genName: string, kinds: seq<Ext>, contents: seq<string>): (ws: seq<Write>)
    requires |kinds| == |contents|
    ensures |ws| == |kinds|
    ensures forall i | 0 <= i < |kinds| :: ws[i] == Partial(genName, kinds[i], contents[i])
  {
    seq(|kinds|, i requires 0 <= i < |kinds| => Partial(genName, kinds[i], contents[i]))
  }

  predicate DistinctKinds(kinds: seq<Ext>)
  {
    forall i, j | 0 <= i < j < |kinds| :: kinds[i] != kinds[j]
  }

  /** Partials of distinct kinds are distinct files, all directly in the
      component's directory. */
  lemma {:induction false} PartialsShape(genName: string, kinds: seq<Ext>, contents: seq<string>)
    requires |kinds| == |contents|
    requires DistinctKinds(kinds)
    ensures var ws := Partials(genName, kinds, contents);
            && Distinct(Paths(ws))
            && forall i | 0 <= i < |ws| :: Parent(ws[i].path) == Dir(genName) && Guards(Dir(genName), ws[i].path)
  {
    var ws := Partials(genName, kinds, contents);
    forall i | 0 <= i < |ws| ensures Parent(ws[i].path) == Dir(genName) && Guards(Dir(genName), ws[i].path) {
      PartialInDir(genName, kinds[i], contents[i]);
    }
    forall i, j | 0 <= i < j < |ws| ensures Paths(ws)[i] != Paths(ws)[j] {
      PartialsApart(genName, kinds[i], contents[i], kinds[j], contents[j]);
    }
  }

  const JsLines: seq<string> :=
    [ "export default () => {",
      "  // function contents go here",
      "};",
      "" ]

  /** The JavaScript partial: an empty default-exported function, the same
      for every component. */
  const JsContent: string := JoinLines(JsLines)

  /** The JavaScript partial read line by line. */
  lemma JsShape()
    ensures Lines(JsContent) == JsLines
  {
    assert forall i | 0 <= i < |JsLines| :: NoNewline(JsLines[i]);
    LinesOfJoin(JsLines);
  }

  /** A partial is written on success, so the directory exists afterwards
      and the files that were there are kept. */
  lemma {:induction false} WrittenComponentExists(files: Files, dirs: set<string>, genName: string, ws: seq<Write>)
    requires ws != []
    requires Dir(genName) + "/" <= ws[0].path
    ensures IsDirectory(Apply(files, ws), dirs, Dir(genName))
  {
    ApplyKeepsFirst(files, ws);
  }
}
