/** A whole `artax generate` run: the dispatcher's checks and choice, then
    the chosen generator's effect on the files. */
module Command {
  import opened Outcomes
  import opened FileSystem
  import opened Dispatcher
  import StaticComponentGen = StaticHtmlComponent
  import StaticPageGen = StaticHtmlPage
  import MixinGen = CommonScssMixin
  import DrupalFunctionGen = DrupalScssFunction
  import WordPressComponentGen = WordPressComponent
  import WordPressPageGen = WordPressPage
  import TemplateGen = WordPressTemplate
  import Components
  import Names

  /** The effect of one generator call, for the generators this model
      covers; `None` for the common Sass function and the Drupal component,
      page and mixin generators, which it does not. */
  function Perform(files: Files, dirs: set<string>, call: Invocation,
                   titleCase: string -> string, snakeCase: string -> string): (e: Option<Effect>)
    ensures e.None? <==> call.generator in {CommonFunction, DrupalComponent, DrupalPage, DrupalMixin}
  {
    var createJS := call.createJS == Some(true);
    match call.generator
    case StaticHtmlComponent =>
      Some(StaticComponentGen.Run(files, dirs, call.name, createJS, titleCase, snakeCase))
    case StaticHtmlPage => Some(StaticPageGen.Run(files, dirs, call.name, titleCase))
    case CommonMixin => Some(MixinGen.Run(files, dirs, call.name, titleCase))
    case DrupalFunction => Some(DrupalFunctionGen.Run(files, dirs, call.name, titleCase))
    case WordPressComponent => Some(WordPressComponentGen.Run(files, dirs, call.name, createJS))
    case WordPressPage => Some(WordPressPageGen.Run(files, dirs, call.name))
    case WordPressTemplate => Some(TemplateGen.Run(files, dirs, call.name, titleCase))
    case _ => None
  }

  /** The run: a failed check ends it with that error and no write, an
      unknown project type ends it successfully with no write, and a chosen
      generator has its effect. */
  function Run(files: Files, dirs: set<string>, marker: Marker, args: seq<string>, js: bool,
               titleCase: string -> string, snakeCase: string -> string): Option<Effect>
  {
    match Dispatch(marker, args, js)
    case Err(err) => Some(Effect(Err(err), []))
    case Ok(None) => Some(Effect(Ok(()), []))
    case Ok(Some(call)) => Perform(files, dirs, call, titleCase, snakeCase)
  }

  /** The files that were there are still there, unchanged. */
  predicate Keeps(files: Files, e: Effect)
  {
    var after := Apply(files, e.writes);
    forall p | p in files :: p in after && after[p] == files[p]
  }

  /** Every run of a modelled generator, and every run that stops before
      one, whatever the arguments, the marker and the files, never changes
      or removes a file that was there before. */
  lemma {:induction false} NeverOverwrites(files: Files, dirs: set<string>, marker: Marker, args: seq<string>,
                                           js: bool, titleCase: string -> string, snakeCase: string -> string)
    ensures var o := Run(files, dirs, marker, args, js, titleCase, snakeCase);
            o.Some? ==> Keeps(files, o.value)
  {
    match Dispatch(marker, args, js)
    case Err(_) =>
    case Ok(None) =>
    case Ok(Some(call)) => PerformKeeps(files, dirs, call, titleCase, snakeCase);
  }

  /** Every generator this model covers keeps the files that were there. */
  lemma {:induction false} PerformKeeps(files: Files, dirs: set<string>, call: Invocation,
                                        titleCase: string -> string, snakeCase: string -> string)
    ensures var o := Perform(files, dirs, call, titleCase, snakeCase);
            o.Some? ==> Keeps(files, o.value)
  {
    match call.generator
    case StaticHtmlComponent => StaticComponentKeeps(files, dirs, call, titleCase, snakeCase);
    case StaticHtmlPage => StaticPageKeeps(files, dirs, call, titleCase, snakeCase);
    case CommonMixin => MixinKeeps(files, dirs, call, titleCase, snakeCase);
    case DrupalFunction => DrupalFunctionKeeps(files, dirs, call, titleCase, snakeCase);
    case WordPressComponent => WordPressComponentKeeps(files, dirs, call, titleCase, snakeCase);
    case WordPressPage => WordPressPageKeeps(files, dirs, call, titleCase, snakeCase);
    case WordPressTemplate => TemplateKeeps(files, dirs, call, titleCase, snakeCase);
    case _ =>
  }

  lemma StaticComponentKeeps(files: Files, dirs: set<string>, call: Invocation,
                             titleCase: string -> string, snakeCase: string -> string)
    requires call.generator == StaticHtmlComponent
    ensures Perform(files, dirs, call, titleCase, snakeCase).Some?
    ensures Keeps(files, Perform(files, dirs, call, titleCase, snakeCase).value)
  {
    StaticComponentGen.Behaviour(files, dirs, call.name, call.createJS == Some(true), titleCase, snakeCase);
  }

  lemma StaticPageKeeps(files: Files, dirs: set<string>, call: Invocation,
                        titleCase: string -> string, snakeCase: string -> string)
    requires call.generator == StaticHtmlPage
    ensures Perform(files, dirs, call, titleCase, snakeCase).Some?
    ensures Keeps(files, Perform(files, dirs, call, titleCase, snakeCase).value)
  {
    StaticPageGen.Behaviour(files, dirs, call.name, titleCase);
  }

  lemma MixinKeeps(files: Files, dirs: set<string>, call: Invocation,
                   titleCase: string -> string, snakeCase: string -> string)
    requires call.generator == CommonMixin
    ensures Perform(files, dirs, call, titleCase, snakeCase).Some?
    ensures Keeps(files, Perform(files, dirs, call, titleCase, snakeCase).value)
  {
    MixinGen.Behaviour(files, dirs, call.name, titleCase);
  }

  lemma DrupalFunctionKeeps(files: Files, dirs: set<string>, call: Invocation,
                            titleCase: string -> string, snakeCase: string -> string)
    requires call.generator == DrupalFunction
    ensures Perform(files, dirs, call, titleCase, snakeCase).Some?
    ensures Keeps(files, Perform(files, dirs, call, titleCase, snakeCase).value)
  {
    DrupalFunctionGen.Behaviour(files, dirs, call.name, titleCase);
  }

  lemma WordPressComponentKeeps(files: Files, dirs: set<string>, call: Invocation,
                                titleCase: string -> string, snakeCase: string -> string)
    requires call.generator == WordPressComponent
    ensures Perform(files, dirs, call, titleCase, snakeCase).Some?
    ensures Keeps(files, Perform(files, dirs, call, titleCase, snakeCase).value)
  {
    WordPressComponentGen.Behaviour(files, dirs, call.name, call.createJS == Some(true));
  }

  lemma WordPressPageKeeps(files: Files, dirs: set<string>, call: Invocation,
                           titleCase: string -> string, snakeCase: string -> string)
    requires call.generator == WordPressPage
    ensures Perform(files, dirs, call, titleCase, snakeCase).Some?
    ensures Keeps(files, Perform(files, dirs, call, titleCase, snakeCase).value)
  {
    WordPressPageGen.Behaviour(files, dirs, call.name);
  }

  lemma TemplateKeeps(files: Files, dirs: set<string>, call: Invocation,
                      titleCase: string -> string, snakeCase: string -> string)
    requires call.generator == WordPressTemplate
    ensures Perform(files, dirs, call, titleCase, snakeCase).Some?
    ensures Keeps(files, Perform(files, dirs, call, titleCase, snakeCase).value)
  {
    TemplateGen.NoOverwrite(files, dirs, call.name, titleCase);
  }

  /** A run whose checks fail, or whose project type is unknown, writes
      nothing and reports the dispatcher's outcome. */
  lemma NothingWrittenBeforeAGenerator(files: Files, dirs: set<string>, marker: Marker, args: seq<string>,
                                       js: bool, titleCase: string -> string, snakeCase: string -> string)
    requires !(Dispatch(marker, args, js).Ok? && Dispatch(marker, args, js).value.Some?)
    ensures var o := Run(files, dirs, marker, args, js, titleCase, snakeCase);
            && o.Some? && o.value.writes == []
            && (o.value.result.Err? <==> Dispatch(marker, args, js).Err?)
            && (marker.Absent? ==> o.value.result == Err(NotInProject))
  {
  }

  /** A Static HTML project runs the static component generator for
      `component`, passing the flag along. */
  lemma StaticComponentDispatch(name: string, js: bool)
    requires name != ""
    ensures Dispatch(Parsed(Some("Static HTML")), ["component", name], js)
            == Ok(Some(Invocation(StaticHtmlComponent, name, Some(js))))
  {
  }

  /** `--js` adds the JavaScript partial in a Static HTML project: the same
      component with the flag writes one file more, when it writes at all. */
  lemma JsFlagAddsOnePartial(files: Files, dirs: set<string>, name: string,
                             titleCase: string -> string, snakeCase: string -> string)
    requires name != ""
    ensures var m := Parsed(Some("Static HTML"));
            var without := Run(files, dirs, m, ["component", name], false, titleCase, snakeCase);
            var with := Run(files, dirs, m, ["component", name], true, titleCase, snakeCase);
            && without.Some? && with.Some?
            && without.value.result == with.value.result
            && (with.value.result.Ok? ==> |with.value.writes| == |without.value.writes| + 1 == 4)
  {
    StaticComponentDispatch(name, false);
    StaticComponentDispatch(name, true);
    var d := Components.Dir(Names.ToLower(name));
    var p0 := StaticComponentGen.Plan(name, false, titleCase, snakeCase);
    var p1 := StaticComponentGen.Plan(name, true, titleCase, snakeCase);
    assert |p0| == 3 && |p1| == 4 by {
      StaticComponentGen.PlanShape(name, false, titleCase, snakeCase);
      StaticComponentGen.PlanShape(name, true, titleCase, snakeCase);
    }
    CreateOutput(files, dirs, d, p0);
    CreateOutput(files, dirs, d, p1);
  }
}
