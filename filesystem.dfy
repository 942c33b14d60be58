/** The part of the file system the generators touch. Paths are relative to
    the project root (the working directory), which is the path "". A file
    system is a map from file paths to contents and a set of directories; a
    directory that holds a file or another directory exists as well, the way
    `fs-extra`'s `outputFileSync` leaves the parents of a file behind. */
module FileSystem {
  import opened Outcomes
  import opened Strings

  type Files = map<string, string>

  /** `d` is a directory: the working directory, a directory of `dirs`, or
      one that holds a directory of `dirs` or a file. */
  predicate IsDirectory(files: Files, dirs: set<string>, d: string)
  {
    || d == ""
    || d in dirs
    || (exists q :: q in dirs && d + "/" <= q)
    || (exists f :: f in files && d + "/" <= f)
  }

  /** `fs.existsSync(p)`: a file or a directory is there. */
  predicate PathExists(files: Files, dirs: set<string>, p: string)
  {
    p in files || IsDirectory(files, dirs, p)
  }

  /** The directory a path lies in: everything before its last `/`, or ""
      for a file at the project root. The ensures only bounds it;
      `ParentOfChild` states that `d + "/" + name` lies in `d`. */
  function Parent(p: string): (d: string)
    ensures d == "" || d + "/" <= p
  {
    var i := LastIndexOf(p, '/');
    if i < 0 then "" else p[..i]
  }

  /** One file write: where and what. */
  datatype Write = Write(path: string, content: string)

  function Paths(ws: seq<Write>): (ps: seq<string>)
    ensures |ps| == |ws|
    ensures forall i | 0 <= i < |ws| :: ps[i] == ws[i].path
  {
    seq(|ws|, i requires 0 <= i < |ws| => ws[i].path)
  }

  predicate Distinct(ps: seq<string>)
  {
    forall i, j | 0 <= i < j < |ps| :: ps[i] != ps[j]
  }

  /** The files after performing the writes `ws` one after the other. */
  function Apply(files: Files, ws: seq<Write>): Files
    decreases |ws|
  {
    if ws == [] then files else Apply(files[ws[0].path := ws[0].content], ws[1..])
  }

  /** Writes to fresh, distinct paths add exactly those paths, with their
      contents, and keep every file that was there. */
  lemma {:induction false} ApplyFresh(files: Files, ws: seq<Write>)
    requires Distinct(Paths(ws))
    requires forall i | 0 <= i < |ws| :: ws[i].path !in files
    ensures Apply(files, ws).Keys == files.Keys + (set i | 0 <= i < |ws| :: ws[i].path)
    ensures forall p | p in files :: Apply(files, ws)[p] == files[p]
    ensures forall i | 0 <= i < |ws| :: Apply(files, ws)[ws[i].path] == ws[i].content
    decreases |ws|
  {
    if ws != [] {
      var next := files[ws[0].path := ws[0].content];
      forall i | 0 <= i < |ws[1..]| ensures ws[1..][i].path !in next {
        assert Paths(ws)[0] != Paths(ws)[i + 1];
      }
      assert Distinct(Paths(ws[1..])) by {
        forall i, j | 0 <= i < j < |ws[1..]| ensures Paths(ws[1..])[i] != Paths(ws[1..])[j] {
          assert Paths(ws)[i + 1] != Paths(ws)[j + 1];
        }
      }
      ApplyFresh(next, ws[1..]);
      var rest := set i | 0 <= i < |ws[1..]| :: ws[1..][i].path;
      var all := set i | 0 <= i < |ws| :: ws[i].path;
      assert all == {ws[0].path} + rest by {
        forall p | p in all ensures p in {ws[0].path} + rest {
          var i :| 0 <= i < |ws| && ws[i].path == p;
          if i > 0 { assert ws[1..][i - 1].path == p; }
        }
      }
    }
  }

  /** Which writer a generator uses: `fs-extra`'s `outputFileSync`, which
      creates missing parent directories, or `fs.writeFileSync`, which throws
      when the parent directory is missing. */
  datatype Writer = OutputFileSync | WriteFileSync

  /** None of the paths `ps` exists. */
  predicate NoneExists(files: Files, dirs: set<string>, ps: seq<string>)
  {
    forall i | 0 <= i < |ps| :: !PathExists(files, dirs, ps[i])
  }

  /** The first guarded path that exists, in the order the guards are tested. */
  function FirstExisting(files: Files, dirs: set<string>, guards: seq<string>): (r: Option<string>)
    ensures r.None? <==> forall i | 0 <= i < |guards| :: !PathExists(files, dirs, guards[i])
    ensures r.Some? ==> r.value in guards && PathExists(files, dirs, r.value)
    ensures r.Some? ==> exists k | 0 <= k < |guards| :: guards[k] == r.value && NoneExists(files, dirs, guards[..k])
  {
    if guards == [] then None
    else if PathExists(files, dirs, guards[0]) then
      assert guards[..0] == [];
      Some(guards[0])
    else
      var r := FirstExisting(files, dirs, guards[1..]);
      assert forall i | 1 <= i < |guards| :: guards[i] == guards[1..][i - 1];
      FirstExistingStep(files, dirs, guards, r);
      r
  }

  /** The first existing guard after a first guard that does not exist is
      the first existing guard of them all. */
  lemma FirstExistingStep(files: Files, dirs: set<string>, guards: seq<string>, r: Option<string>)
    requires guards != [] && !PathExists(files, dirs, guards[0])
    requires r.Some? ==> exists k | 0 <= k < |guards[1..]| ::
               guards[1..][k] == r.value && forall i | 0 <= i < k :: !PathExists(files, dirs, guards[1..][i])
    ensures r.Some? ==> exists k | 0 <= k < |guards| :: guards[k] == r.value && NoneExists(files, dirs, guards[..k])
  {
    if r.Some? {
      var k :| 0 <= k < |guards[1..]| && guards[1..][k] == r.value && NoneExists(files, dirs, guards[1..][..k]);
      assert guards[..k + 1] == [guards[0]] + guards[1..][..k];
      assert guards[k + 1] == r.value;
    }
  }

  /** The writes that succeed, in order, before the first one that throws. */
  function Performed(files: Files, dirs: set<string>, plan: seq<Write>, writer: Writer): (done: seq<Write>)
    ensures done <= plan
    ensures writer.OutputFileSync? ==> done == plan
    ensures |done| < |plan| ==> !IsDirectory(Apply(files, done), dirs, Parent(plan[|done|].path))
    ensures writer.WriteFileSync? ==> EachFoundItsDirectory(files, dirs, done)
    decreases |plan|
  {
    if plan == [] then []
    else if writer.OutputFileSync? || IsDirectory(files, dirs, Parent(plan[0].path)) then
      var next := files[plan[0].path := plan[0].content];
      var rest := Performed(next, dirs, plan[1..], writer);
      assert plan == [plan[0]] + plan[1..];
      assert |rest| < |plan[1..]| ==> plan[1..][|rest|] == plan[|rest| + 1];
      PerformedStep(files, dirs, plan[0], rest, writer);
      [plan[0]] + rest
    else []
  }

  /** Each write found its directory, once the writes before it were made:
      what `fs.writeFileSync` needs in order not to throw. */
  predicate EachFoundItsDirectory(files: Files, dirs: set<string>, done: seq<Write>)
  {
    forall i | 0 <= i < |done| :: IsDirectory(Apply(files, done[..i]), dirs, Parent(done[i].path))
  }

  /** A write whose directory exists, followed by writes that each found
      their directory, is a sequence of writes that each found theirs. */
  lemma PerformedStep(files: Files, dirs: set<string>, w: Write, rest: seq<Write>, writer: Writer)
    requires writer.WriteFileSync? ==> IsDirectory(files, dirs, Parent(w.path))
    requires writer.WriteFileSync? ==> EachFoundItsDirectory(files[w.path := w.content], dirs, rest)
    ensures writer.WriteFileSync? ==> EachFoundItsDirectory(files, dirs, [w] + rest)
  {
    if writer.WriteFileSync? {
      var done := [w] + rest;
      forall i | 0 <= i < |done| ensures IsDirectory(Apply(files, done[..i]), dirs, Parent(done[i].path)) {
        if i == 0 {
          assert done[..0] == [];
        } else {
          var before := done[..i];
          assert before[0] == w && before[1..] == rest[..i - 1];
          assert Apply(files, before) == Apply(files[w.path := w.content], rest[..i - 1]);
          assert done[i] == rest[i - 1];
        }
      }
    }
  }

  /** What a generator does, as a value: its result and the writes it made. */
  datatype Effect = Effect(result: Result<()>, writes: seq<Write>)

  /** A generator run: refuse with an error, writing nothing, when a guarded
      path exists; otherwise perform the planned writes in order. */
  function Create(files: Files, dirs: set<string>, guards: seq<string>, plan: seq<Write>, writer: Writer): (e: Effect)
    ensures e.writes <= plan
    ensures FirstExisting(files, dirs, guards).Some? ==>
              e == Effect(Err(AlreadyExists(FirstExisting(files, dirs, guards).value)), [])
    ensures e.result.Ok? <==> FirstExisting(files, dirs, guards).None? && e.writes == plan
    ensures writer.OutputFileSync? ==>
              (e.result.Ok? <==> forall i | 0 <= i < |guards| :: !PathExists(files, dirs, guards[i]))
    ensures e.result.Err? && e.result.error.WriteFailed? ==>
              && |e.writes| < |plan|
              && e.result.error.path == plan[|e.writes|].path
              && !IsDirectory(Apply(files, e.writes), dirs, Parent(e.result.error.path))
    ensures e.result.Err? ==> e.result.error.AlreadyExists? || e.result.error.WriteFailed?
    ensures FirstExisting(files, dirs, guards).None? ==> e.writes == Performed(files, dirs, plan, writer)
    ensures FirstExisting(files, dirs, guards).None? && |e.writes| < |plan| ==>
              e.result == Err(WriteFailed(plan[|e.writes|].path))
  {
    match FirstExisting(files, dirs, guards)
    case Some(g) => Effect(Err(AlreadyExists(g)), [])
    case None =>
      var done := Performed(files, dirs, plan, writer);
      if |done| == |plan| then
        assert done == plan;
        Effect(Ok(()), plan)
      else Effect(Err(WriteFailed(plan[|done|].path)), done)
  }

  /** Path `p` is guarded by `g` when it is `g` or lies inside the directory `g`. */
  predicate Guards(g: string, p: string)
  {
    g == p || g + "/" <= p
  }

  /** Nothing under a guard that is absent can be a file. */
  lemma AbsentGuardLeavesNoFile(files: Files, dirs: set<string>, g: string, p: string)
    requires !PathExists(files, dirs, g)
    requires Guards(g, p)
    ensures p !in files
  {
  }

  /** A generator whose every target is guarded never overwrites a file: on
      every outcome the files that were there are kept, and only the targets
      it wrote, with their planned contents, are added. */
  lemma CreateOnlyAdds(files: Files, dirs: set<string>, guards: seq<string>, plan: seq<Write>, writer: Writer)
    requires forall i | 0 <= i < |plan| :: exists j | 0 <= j < |guards| :: Guards(guards[j], plan[i].path)
    requires Distinct(Paths(plan))
    ensures var e := Create(files, dirs, guards, plan, writer);
            var after := Apply(files, e.writes);
            && after.Keys == files.Keys + (set i | 0 <= i < |e.writes| :: e.writes[i].path)
            && (forall p | p in files :: after[p] == files[p])
            && (forall i | 0 <= i < |e.writes| :: after[e.writes[i].path] == e.writes[i].content)
  {
    var e := Create(files, dirs, guards, plan, writer);
    if e.writes != [] {
      assert FirstExisting(files, dirs, guards).None?;
      forall i | 0 <= i < |e.writes| ensures e.writes[i].path !in files {
        assert e.writes[i] == plan[i];
        var j :| 0 <= j < |guards| && Guards(guards[j], plan[i].path);
        AbsentGuardLeavesNoFile(files, dirs, guards[j], plan[i].path);
      }
      assert Distinct(Paths(e.writes)) by {
        forall i, j | 0 <= i < j < |e.writes| ensures Paths(e.writes)[i] != Paths(e.writes)[j] {
          assert Paths(plan)[i] != Paths(plan)[j];
        }
      }
      ApplyFresh(files, e.writes);
    }
  }

  /** Two writes to different paths, each guarded by its own path, never
      overwrite a file. */
  lemma CreatePairOnlyAdds(files: Files, dirs: set<string>, w1: Write, w2: Write, writer: Writer)
    requires w1.path != w2.path
    ensures var e := Create(files, dirs, [w1.path, w2.path], [w1, w2], writer);
            var after := Apply(files, e.writes);
            && after.Keys == files.Keys + (set i | 0 <= i < |e.writes| :: e.writes[i].path)
            && (forall p | p in files :: after[p] == files[p])
  {
    var guards, plan := [w1.path, w2.path], [w1, w2];
    assert Guards(guards[0], plan[0].path) && Guards(guards[1], plan[1].path);
    assert Distinct(Paths(plan));
    CreateOnlyAdds(files, dirs, guards, plan, writer);
  }

  /** A single `fs.writeFileSync` guarded by its own path refuses when the
      path exists, fails without writing when its directory is missing, and
      otherwise writes exactly that file. */
  lemma CreateSingle(files: Files, dirs: set<string>, w: Write)
    ensures var e := Create(files, dirs, [w.path], [w], WriteFileSync);
            && (PathExists(files, dirs, w.path) ==> e == Effect(Err(AlreadyExists(w.path)), []))
            && (!PathExists(files, dirs, w.path) && IsDirectory(files, dirs, Parent(w.path)) ==>
                  e == Effect(Ok(()), [w]))
            && (!PathExists(files, dirs, w.path) && !IsDirectory(files, dirs, Parent(w.path)) ==>
                  e == Effect(Err(WriteFailed(w.path)), []))
            && (forall p | p in files :: p in Apply(files, e.writes) && Apply(files, e.writes)[p] == files[p])
  {
    assert Guards([w.path][0], [w][0].path);
    assert Paths([w]) == [w.path];
    CreateOnlyAdds(files, dirs, [w.path], [w], WriteFileSync);
    if !PathExists(files, dirs, w.path) {
      assert FirstExisting(files, dirs, [w.path]).None?;
      assert [w][1..] == [];
    }
  }

  /** A run with `outputFileSync` guarded by one path: refused when the
      path exists, otherwise every planned write is made. */
  lemma CreateOutput(files: Files, dirs: set<string>, g: string, plan: seq<Write>)
    ensures Create(files, dirs, [g], plan, OutputFileSync) ==
              if PathExists(files, dirs, g) then Effect(Err(AlreadyExists(g)), []) else Effect(Ok(()), plan)
  {
    assert [g][1..] == [];
  }

  /** Running a generator a second time, on what the first run left, always
      fails and writes nothing, whatever the first run did, provided every
      target is guarded and there is one. After a run that wrote something,
      the second is refused because a guard now exists (the first guard,
      when it guards the first target); after a run that wrote nothing, the
      second does exactly what the first did. */
  lemma {:induction false} RepeatRefused(files: Files, dirs: set<string>, guards: seq<string>, plan: seq<Write>, writer: Writer)
    requires |plan| > 0
    requires forall i | 0 <= i < |plan| :: exists j | 0 <= j < |guards| :: Guards(guards[j], plan[i].path)
    ensures var e1 := Create(files, dirs, guards, plan, writer);
            var e2 := Create(Apply(files, e1.writes), dirs, guards, plan, writer);
            && e2.result.Err? && e2.writes == []
            && (e1.writes != [] ==> e2.result.error.AlreadyExists? && e2.result.error.path in guards)
            && (e1.writes != [] && |guards| > 0 && Guards(guards[0], plan[0].path) ==>
                  e2 == Effect(Err(AlreadyExists(guards[0])), []))
            && (e1.writes == [] ==> e2 == e1)
  {
    var e1 := Create(files, dirs, guards, plan, writer);
    var after := Apply(files, e1.writes);
    if e1.writes != [] {
      assert e1.writes[0] == plan[0];
      var j :| 0 <= j < |guards| && Guards(guards[j], plan[0].path);
      WrittenGuardExists(files, dirs, e1.writes, guards[j]);
      assert FirstExisting(after, dirs, guards).Some?;
      if Guards(guards[0], plan[0].path) {
        WrittenGuardExists(files, dirs, e1.writes, guards[0]);
      }
    } else {
      assert after == files;
      assert !e1.result.Ok?;
      if FirstExisting(files, dirs, guards).None? {
        assert Performed(files, dirs, plan, writer) == [];
      }
    }
  }

  /** A guard of the first path written exists after the writes. */
  lemma WrittenGuardExists(files: Files, dirs: set<string>, ws: seq<Write>, g: string)
    requires ws != [] && Guards(g, ws[0].path)
    ensures PathExists(Apply(files, ws), dirs, g)
  {
    var after := Apply(files, ws);
    ApplyKeepsFirst(files, ws);
    if g != ws[0].path {
      assert g + "/" <= ws[0].path;
      assert IsDirectory(after, dirs, g);
    }
  }

  /** The first path written is there after any sequence of writes. */
  lemma {:induction false} ApplyKeepsFirst(files: Files, ws: seq<Write>)
    requires ws != []
    ensures ws[0].path in Apply(files, ws)
  {
    ApplyKeepsPath(files[ws[0].path := ws[0].content], ws[1..], ws[0].path);
  }

  lemma {:induction false} ApplyKeepsPath(files: Files, ws: seq<Write>, p: string)
    requires p in files
    ensures p in Apply(files, ws)
    decreases |ws|
  {
    if ws != [] {
      ApplyKeepsPath(files[ws[0].path := ws[0].content], ws[1..], p);
    }
  }

  /** The directory of a path `d/name` whose last part has no slash is `d`. */
  lemma ParentOfChild(d: string, name: string)
    requires '/' !in name
    ensures Parent(d + "/" + name) == d
  {
    LastIndexOfBefore(d, '/', name);
    assert (d + "/" + name)[..|d|] == d;
  }

  /** A file written under a directory makes that directory exist. */
  lemma WrittenMakesDirectory(files: Files, dirs: set<string>, w: Write, d: string)
    requires d + "/" <= w.path
    ensures IsDirectory(files[w.path := w.content], dirs, d)
  {
    assert w.path in files[w.path := w.content];
  }

  /** One more write at the end: applied last, logged last. */
  lemma {:induction false} ApplySnoc(files: Files, ws: seq<Write>, w: Write)
    ensures Apply(files, ws + [w]) == Apply(files, ws)[w.path := w.content]
    ensures Paths(ws + [w]) == Paths(ws) + [w.path]
    decreases |ws|
  {
    if ws == [] {
      assert [w][1..] == [];
    } else {
      assert (ws + [w])[1..] == ws[1..] + [w];
      ApplySnoc(files[ws[0].path := ws[0].content], ws[1..], w);
    }
  }

  /** One or two writes, spelled out. */
  lemma ApplyPair(files: Files, w1: Write, w2: Write)
    ensures Apply(files, [w1]) == files[w1.path := w1.content]
    ensures Apply(files, [w1, w2]) == files[w1.path := w1.content][w2.path := w2.content]
    ensures Paths([]) == [] && Paths([w1]) == [w1.path] && Paths([w1, w2]) == [w1.path, w2.path]
  {
    var f1 := files[w1.path := w1.content];
    assert [w1][1..] == [] && [w2][1..] == [];
    assert Apply(f1, [w2]) == Apply(f1[w2.path := w2.content], []);
    assert [w1, w2][0] == w1 && [w1, w2][1..] == [w2];
    assert Apply(files, [w1, w2]) == Apply(f1, [w2]);
  }

  /** Three writes, spelled out. */
  lemma ApplyTriple(files: Files, ws: seq<Write>)
    requires |ws| == 3
    ensures Apply(files, ws) ==
              files[ws[0].path := ws[0].content][ws[1].path := ws[1].content][ws[2].path := ws[2].content]
    ensures Paths(ws) == [ws[0].path, ws[1].path, ws[2].path]
  {
    ApplyPair(files[ws[0].path := ws[0].content], ws[1], ws[2]);
    assert ws[1..] == [ws[1], ws[2]];
  }

  /** Four writes, spelled out. */
  lemma ApplyQuad(files: Files, ws: seq<Write>)
    requires |ws| == 4
    ensures Apply(files, ws) ==
              files[ws[0].path := ws[0].content][ws[1].path := ws[1].content][ws[2].path := ws[2].content][ws[3].path := ws[3].content]
    ensures Paths(ws) == [ws[0].path, ws[1].path, ws[2].path, ws[3].path]
  {
    ApplyTriple(files[ws[0].path := ws[0].content], ws[1..]);
  }

  /** Logging three paths one at a time logs them in order: the write log
      of a component generator after two or three writes. */
  lemma LogOfThree(log: seq<string>, a: string, b: string, c: string)
    ensures log + [a] + [b] == log + [a, b]
    ensures log + [a] + [b] + [c] == log + [a, b, c]
  {
  }

  /** Logging four paths one at a time logs them in order. */
  lemma LogOfFour(log: seq<string>, a: string, b: string, c: string, d: string)
    ensures log + [a] + [b] + [c] == log + [a, b, c]
    ensures log + [a] + [b] + [c] + [d] == log + [a, b, c, d]
  {
  }

  /** A file written outside a directory neither creates nor removes it. */
  lemma WriteElsewhere(files: Files, dirs: set<string>, w: Write, d: string)
    requires !(d + "/" <= w.path)
    ensures IsDirectory(files[w.path := w.content], dirs, d) <==> IsDirectory(files, dirs, d)
  {
    var after := files[w.path := w.content];
    if exists f :: f in after && d + "/" <= f {
      var f :| f in after && d + "/" <= f;
      assert f != w.path;
      assert f in files;
    }
    if exists f :: f in files && d + "/" <= f {
      var f :| f in files && d + "/" <= f;
      assert f in after;
    }
  }

  /** Two `fs.writeFileSync` calls, each guarded by its own path, where the
      first write does not decide whether the second one's directory exists:
      refused on the first existing guard; otherwise the writes succeed in
      order until the first whose directory is missing. */
  lemma {:induction false} CreatePair(files: Files, dirs: set<string>, w1: Write, w2: Write)
    ensures var e := Create(files, dirs, [w1.path, w2.path], [w1, w2], WriteFileSync);
            var after := files[w1.path := w1.content];
            && (PathExists(files, dirs, w1.path) ==> e == Effect(Err(AlreadyExists(w1.path)), []))
            && (!PathExists(files, dirs, w1.path) && PathExists(files, dirs, w2.path) ==>
                  e == Effect(Err(AlreadyExists(w2.path)), []))
            && (!PathExists(files, dirs, w1.path) && !PathExists(files, dirs, w2.path) ==>
                  && (!IsDirectory(files, dirs, Parent(w1.path)) ==> e == Effect(Err(WriteFailed(w1.path)), []))
                  && (IsDirectory(files, dirs, Parent(w1.path)) && IsDirectory(after, dirs, Parent(w2.path)) ==>
                        e == Effect(Ok(()), [w1, w2]))
                  && (IsDirectory(files, dirs, Parent(w1.path)) && !IsDirectory(after, dirs, Parent(w2.path)) ==>
                        e == Effect(Err(WriteFailed(w2.path)), [w1])))
  {
    var guards := [w1.path, w2.path];
    var plan := [w1, w2];
    assert guards[1..] == [w2.path] && guards[1..][1..] == [];
    assert plan[1..] == [w2] && plan[1..][1..] == [];
    if !PathExists(files, dirs, w1.path) {
      assert FirstExisting(files, dirs, guards) == FirstExisting(files, dirs, [w2.path]);
      if !PathExists(files, dirs, w2.path) && IsDirectory(files, dirs, Parent(w1.path)) {
        var after := files[w1.path := w1.content];
        assert Performed(files, dirs, plan, WriteFileSync) == [w1] + Performed(after, dirs, [w2], WriteFileSync);
      }
    }
  }

  /** Two guarded `fs.writeFileSync` calls made the way the WordPress
      template generator makes them: refuse if either path exists, then
      write the first file and the second, stopping at the first write that
      throws. The disk ends as `Create` says. */
  method CreateTwo(disk: Disk, w1: Write, w2: Write) returns (r: Result<()>)
    modifies disk
    ensures var e := Create(old(disk.files), old(disk.dirs), [w1.path, w2.path], [w1, w2], WriteFileSync);
            && r == e.result
            && disk.files == Apply(old(disk.files), e.writes)
            && disk.log == old(disk.log) + Paths(e.writes)
    ensures disk.dirs == old(disk.dirs)
  {
    CreatePair(disk.files, disk.dirs, w1, w2);
    ApplyPair(disk.files, w1, w2);
    if disk.Exists(w1.path) || disk.Exists(w2.path) {
      if disk.Exists(w1.path) {
        return Err(AlreadyExists(w1.path));
      }
      return Err(AlreadyExists(w2.path));
    }
    var ok := disk.WriteFile(w1.path, w1.content);
    if !ok {
      return Err(WriteFailed(w1.path));
    }
    ok := disk.WriteFile(w2.path, w2.content);
    if !ok {
      return Err(WriteFailed(w2.path));
    }
    return Ok(());
  }

  /** The file system the generators see, updated in place by the writes. */
  class Disk {
    var files: Files
    var dirs: set<string>
    /** Every path written so far, in the order of the writes. */
    ghost var log: seq<string>

    constructor (files: Files, dirs: set<string>)
      ensures this.files == files && this.dirs == dirs && log == []
    {
      this.files := files;
      this.dirs := dirs;
      log := [];
    }

    /** `fs.existsSync(p)`. */
    predicate Exists(p: string)
      reads this
    {
      PathExists(files, dirs, p)
    }

    /** `fs.outputFileSync(path, content)`: writes the file, creating its
        parent directories. */
    method OutputFile(path: string, content: string)
      modifies this
      ensures files == old(files)[path := content]
      ensures dirs == old(dirs)
      ensures log == old(log) + [path]
    {
      files := files[path := content];
      log := log + [path];
    }

    /** `fs.writeFileSync(path, content)`: writes the file when its parent
        directory exists; `ok` is false where Node.js throws. */
    method WriteFile(path: string, content: string) returns (ok: bool)
      modifies this
      ensures ok == IsDirectory(old(files), old(dirs), Parent(path))
      ensures files == (if ok then old(files)[path := content] else old(files))
      ensures dirs == old(dirs)
      ensures log == (if ok then old(log) + [path] else old(log))
    {
      ok := IsDirectory(files, dirs, Parent(path));
      if ok {
        files := files[path := content];
        log := log + [path];
      }
    }
  }
}
