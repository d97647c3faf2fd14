/** One file tab: loads, edits, saves and foreign writes interleave, with the server comparing modification times. */
module FileSave {
  import opened Wrappers

  datatype Tab = Tab(
    content: Option<string>, originalContent: Option<string>, mtimeMs: Option<real>, editable: bool,
    dirty: bool, conflict: bool, loading: bool, saving: bool, loadToken: nat)

  function EmptyTab(): Tab { Tab(None, None, None, false, false, false, false, false, 0) }

  /** What a read answers: the file (a truncated one is not editable), a binary, a failed conversion, or an error. */
  datatype Response = Loaded(content: string, mtimeMs: real, editable: bool) | Binary | Unavailable | LoadError

  datatype SaveResult = Saved(mtimeMs: real) | Conflict | Rejected

  // ---------------------------------------------------------------- the tab, await by await

  function BeginLoad(t: Tab): Tab { t.(loadToken := t.loadToken + 1, loading := true) }

  function AbortLoad(t: Tab): Tab {
    t.(loadToken := t.loadToken + 1, loading := if t.content.None? then false else t.loading)
  }

  /** A response is used only while its token is the newest. */
  function FinishLoad(t: Tab, token: nat, r: Response): Tab {
    if token != t.loadToken then t
    else match r
      case Loaded(c, m, e) =>
        t.(loading := false, content := Some(c), originalContent := Some(c), mtimeMs := Some(m), editable := e,
           dirty := false, conflict := false)
      case Unavailable => t.(loading := false, content := None, originalContent := None, editable := false)
      case Binary => t.(loading := false, editable := false)
      case LoadError => t.(loading := false)
  }

  function OriginalOrEmpty(t: Tab): string { if t.originalContent.Some? then t.originalContent.value else "" }

  function Edit(t: Tab, content: string): Tab {
    t.(content := Some(content), dirty := content != OriginalOrEmpty(t))
  }

  /** Discarding puts the original content back. */
  function Discarded(t: Tab): Tab { t.(content := Some(OriginalOrEmpty(t)), dirty := false, conflict := false) }

  /** A reload drops the edits' claim to be saved before it has anything to show instead. */
  function BeginReload(t: Tab): Tab { BeginLoad(t.(conflict := false, dirty := false)) }

  predicate MaySave(t: Tab, force: bool) {
    t.dirty && t.editable && t.content.Some? && (t.conflict ==> force)
  }

  function FinishSave(t: Tab, saved: string, r: SaveResult): Tab {
    match r
    case Saved(m) =>
      t.(saving := false, dirty := t.content != Some(saved), conflict := false,
         mtimeMs := Some(m), originalContent := Some(saved))
    case Conflict => t.(saving := false, conflict := true)
    case Rejected => t.(saving := false)
  }

  // ---------------------------------------------------------------- the whole system

  datatype Version = Version(content: string, mtimeMs: real)

  /** A save on its way: what it writes, the time it expects, and (history) the original content it was issued against. */
  datatype Request = Request(content: string, expected: Option<real>, force: bool, base: Option<string>)

  datatype Saving = NoSave | Sent(request: Request) | Answered(content: string, result: SaveResult) | Resolving

  /** History: a save that went through, and the version it replaced. */
  datatype Success = Success(request: Request, replaced: Version)

  /** A read on its way: the server first looks at the file's time, and reads the content later. */
  datatype Load = Asked | Stamped(mtimeMs: real) | Ready(response: Response)

  /** The answers to a save conflict. */
  datatype Choice = Overwrite | Reload | Leave

  datatype State = State(
    disk: Version, versions: seq<Version>, tab: Tab, loads: map<nat, Load>, saving: Saving,
    successes: seq<Success>,
    lagging: bool)   // history: whether the dirty mark departs, told from the events and the mark alone

  datatype Event =
    | StartLoad
    // A tab with unsaved edits is not reloaded before the user has saved or discarded them.
    | StartReload
    | Discard
    | Abort
    | StatFile(token: nat)
    | ServeLoad(token: nat, response: Response)
    | EndLoad(token: nat)
    | Type(content: string)
    | StartSave(force: bool)
    | ServeSave(mtimeMs: real, fails: bool)
    | EndSave
    | Resolve(choice: Choice)
    | Foreign(content: string, mtimeMs: real)

  function Distance(a: real, b: real): real { if a < b then b - a else a - b }

  /** The time differs from all earlier ones by more than the server's one millisecond of tolerance. */
  ghost predicate NewTime(versions: seq<Version>, m: real) {
    forall v <- versions :: Distance(v.mtimeMs, m) > 1.0
  }

  function Serve(disk: Version, r: Request, m: real, fails: bool): SaveResult {
    if fails || (r.expected.None? && !r.force) then Rejected
    else if !r.force && Distance(disk.mtimeMs, r.expected.value) > 1.0 then Conflict
    else Saved(m)
  }

  ghost predicate Enabled(s: State, e: Event) {
    match e
    case StartLoad => true
    case StartReload => !s.tab.dirty
    case Discard => true
    case Abort => true
    case StatFile(token) => token in s.loads && s.loads[token].Asked?
    case ServeLoad(token, r) =>
      token in s.loads && s.loads[token].Stamped?
      && (r.Loaded? ==> r.mtimeMs == s.loads[token].mtimeMs)
      // At most the length seen with the time is read, so a file that has changed since may be answered cut off.
      && (r.Loaded? && r.editable && s.disk.mtimeMs == r.mtimeMs ==> r.content == s.disk.content)
    case EndLoad(token) => token in s.loads && s.loads[token].Ready?
    case Type(_) => true
    case StartSave(_) => s.saving.NoSave?
    case ServeSave(_, _) => s.saving.Sent?
    case EndSave => s.saving.Answered?
    case Resolve(_) => s.saving.Resolving?
    case Foreign(_, _) => true
  }

  /** Whoever writes leaves a modification time that tells the new version from all before it. */
  ghost predicate Separates(s: State, e: Event) {
    (e.ServeSave? || e.Foreign?) ==> NewTime(s.versions, e.mtimeMs)
  }

  function Issue(s: State, force: bool): State {
    if !MaySave(s.tab, force) then s.(saving := NoSave)
    else
      var r := Request(s.tab.content.value, s.tab.mtimeMs, force, s.tab.originalContent);
      s.(tab := s.tab.(saving := true), saving := Sent(r))
  }

  /** Reloading whatever is unsaved, which only a conflict leads to. */
  function Reloading(s: State): State {
    s.(tab := BeginReload(s.tab), loads := s.loads[s.tab.loadToken + 1 := Asked], lagging := s.tab.dirty != s.lagging)
  }

  function Written(s: State, v: Version): State { s.(disk := v, versions := s.versions + [v]) }

  function Apply(s: State, e: Event): State
    requires Enabled(s, e)
  {
    match e
    case StartLoad => s.(tab := BeginLoad(s.tab), loads := s.loads[s.tab.loadToken + 1 := Asked])
    case StartReload => Reloading(s)
    case Discard => s.(tab := Discarded(s.tab), lagging := false)
    case Abort => s.(tab := AbortLoad(s.tab))
    case StatFile(token) => s.(loads := s.loads[token := Stamped(s.disk.mtimeMs)])
    case ServeLoad(token, r) => s.(loads := s.loads[token := Ready(r)])
    case EndLoad(token) =>
      var r := s.loads[token].response;
      s.(tab := FinishLoad(s.tab, token, r), loads := s.loads - {token},
         lagging := if token != s.tab.loadToken || r.LoadError? || r.Binary? then s.lagging else r.Unavailable? && s.tab.dirty)
    case Type(c) => s.(tab := Edit(s.tab, c), lagging := false)
    case StartSave(force) =>
      // A conflicting tab is not saved without force; the user is asked instead.
      if s.tab.conflict && !force && s.tab.dirty then s.(saving := Resolving) else Issue(s, force)
    case ServeSave(m, fails) =>
      var r := s.saving.request;
      var result := Serve(s.disk, r, m, fails);
      var t := s.(saving := Answered(r.content, result));
      if result.Saved? then Written(t, Version(r.content, m)).(successes := s.successes + [Success(r, s.disk)]) else t
    case EndSave =>
      var t := FinishSave(s.tab, s.saving.content, s.saving.result);
      s.(tab := t, saving := if s.saving.result.Conflict? then Resolving else NoSave,
         lagging := if s.saving.result.Saved? then false else s.lagging)
    case Resolve(choice) =>
      (match choice
       case Overwrite => Issue(s.(tab := s.tab.(conflict := false)), true)
       case Reload => Reloading(s.(saving := NoSave))
       case Leave => s.(saving := NoSave))
    case Foreign(c, m) => Written(s, Version(c, m))
  }

  function Init(v: Version): State { State(v, [v], EmptyTab(), map[], NoSave, [], false) }

  ghost predicate Possible(s: State, es: seq<Event>)
    decreases |es|
  {
    es == [] || (Enabled(s, es[0]) && Possible(Apply(s, es[0]), es[1..]))
  }

  ghost function Run(s: State, es: seq<Event>): State
    requires Possible(s, es)
    decreases |es|
  {
    if es == [] then s else Run(Apply(s, es[0]), es[1..])
  }

  /** Runs in which modification times tell versions apart. */
  ghost predicate TimedRun(s: State, es: seq<Event>)
    decreases |es|
  {
    es == [] || (Enabled(s, es[0]) && Separates(s, es[0]) && TimedRun(Apply(s, es[0]), es[1..]))
  }

  lemma RunStep(s: State, e: Event, es: seq<Event>)
    requires Enabled(s, e) && Possible(Apply(s, e), es)
    ensures Possible(s, [e] + es) && Run(s, [e] + es) == Run(Apply(s, e), es)
  {
    assert ([e] + es)[1..] == es;
  }

  // ---------------------------------------------------------------- what is saved over

  ghost predicate TimesApart(versions: seq<Version>) {
    forall i, j :: 0 <= i < j < |versions| ==> Distance(versions[i].mtimeMs, versions[j].mtimeMs) > 1.0
  }

  ghost predicate TimeOf(versions: seq<Version>, m: real, v: Version) { v in versions && v.mtimeMs == m }

  /** Content and time belong to one version, or the time is that of a version the disk no longer holds. */
  ghost predicate Dated(versions: seq<Version>, disk: Version, content: string, m: real) {
    Version(content, m) in versions || exists v :: TimeOf(versions, m, v) && v != disk
  }

  ghost predicate BaseOk(versions: seq<Version>, disk: Version, content: Option<string>, m: Option<real>) {
    content.Some? && m.Some? && Dated(versions, disk, content.value, m.value)
  }

  ghost predicate LoadOk(versions: seq<Version>, disk: Version, load: Load) {
    match load
    case Asked => true
    case Stamped(m) => exists v :: TimeOf(versions, m, v)
    case Ready(r) => r.Loaded? && r.editable ==> Dated(versions, disk, r.content, r.mtimeMs)
  }

  ghost predicate SuccessOk(x: Success) {
    !x.request.force ==> x.request.base == Some(x.replaced.content) && x.request.expected == Some(x.replaced.mtimeMs)
  }

  ghost predicate SavingOk(s: State) {
    && (s.saving.Sent? ==> BaseOk(s.versions, s.disk, s.saving.request.base, s.saving.request.expected))
    && (s.saving.Answered? && s.saving.result.Saved? ==> Version(s.saving.content, s.saving.result.mtimeMs) in s.versions)
  }

  ghost predicate Inv(s: State) {
    && TimesApart(s.versions) && s.disk in s.versions
    && (s.tab.editable ==> BaseOk(s.versions, s.disk, s.tab.originalContent, s.tab.mtimeMs))
    && (forall k <- s.loads :: LoadOk(s.versions, s.disk, s.loads[k]))
    && SavingOk(s)
    && (forall x <- s.successes :: SuccessOk(x))
  }

  lemma GrowTimes(versions: seq<Version>, v: Version)
    requires TimesApart(versions) && NewTime(versions, v.mtimeMs)
    ensures TimesApart(versions + [v])
    ensures forall x <- versions :: x in versions + [v]
    ensures v in versions + [v] && v !in versions
  {
    var all := versions + [v];
    forall i, j | 0 <= i < j < |all| ensures Distance(all[i].mtimeMs, all[j].mtimeMs) > 1.0 {
      if j == |versions| { assert all[i] in versions; }
    }
  }

  /** Two versions within the tolerance are the same version. */
  lemma CloseIsSame(versions: seq<Version>, a: Version, b: Version)
    requires TimesApart(versions) && a in versions && b in versions && Distance(a.mtimeMs, b.mtimeMs) <= 1.0
    ensures a == b
  {
    var i :| 0 <= i < |versions| && versions[i] == a;
    var j :| 0 <= j < |versions| && versions[j] == b;
  }

  /** A time that has passed stays passed: no later version comes near it. */
  lemma DatedGrows(versions: seq<Version>, disk: Version, v: Version, content: string, m: real)
    requires TimesApart(versions) && NewTime(versions, v.mtimeMs) && Dated(versions, disk, content, m)
    ensures Dated(versions + [v], v, content, m)
  {
    GrowTimes(versions, v);
    if Version(content, m) !in versions {
      var past :| TimeOf(versions, m, past) && past != disk;
      assert TimeOf(versions + [v], m, past) && past != v;
    }
  }

  lemma LoadGrows(versions: seq<Version>, disk: Version, v: Version, load: Load)
    requires TimesApart(versions) && NewTime(versions, v.mtimeMs) && LoadOk(versions, disk, load)
    ensures LoadOk(versions + [v], v, load)
  {
    match load
    case Asked =>
    case Stamped(m) =>
      var w :| TimeOf(versions, m, w);
      assert TimeOf(versions + [v], m, w);
    case Ready(r) => if r.Loaded? && r.editable { DatedGrows(versions, disk, v, r.content, r.mtimeMs); }
  }

  /** A new version on disk, whoever wrote it, outdates nothing that was known. */
  lemma WrittenOk(s: State, v: Version)
    requires Inv(s) && NewTime(s.versions, v.mtimeMs)
    ensures Inv(Written(s, v))
  {
    var t := Written(s, v);
    GrowTimes(s.versions, v);
    if s.tab.editable { DatedGrows(s.versions, s.disk, v, s.tab.originalContent.value, s.tab.mtimeMs.value); }
    if s.saving.Sent? {
      DatedGrows(s.versions, s.disk, v, s.saving.request.base.value, s.saving.request.expected.value);
    }
    forall k | k in t.loads ensures LoadOk(t.versions, t.disk, t.loads[k]) {
      LoadGrows(s.versions, s.disk, v, s.loads[k]);
    }
  }

  /** What an unforced save that the server accepts replaces is what it was based on. */
  lemma AcceptedIsBase(s: State, r: Request)
    requires Inv(s) && !r.force && BaseOk(s.versions, s.disk, r.base, r.expected)
    requires Distance(s.disk.mtimeMs, r.expected.value) <= 1.0
    ensures SuccessOk(Success(r, s.disk))
  {
    var b := Version(r.base.value, r.expected.value);
    if b in s.versions {
      CloseIsSame(s.versions, s.disk, b);
    } else {
      var v :| TimeOf(s.versions, r.expected.value, v) && v != s.disk;
      CloseIsSame(s.versions, s.disk, v);
    }
  }

  lemma RecordedOk(s: State, x: Success)
    requires Inv(s) && SuccessOk(x)
    ensures Inv(s.(saving := NoSave, successes := s.successes + [x]))
  {
  }

  lemma ServeSaveOk(s: State, m: real, fails: bool)
    requires Inv(s) && s.saving.Sent? && NewTime(s.versions, m)
    ensures Inv(Apply(s, ServeSave(m, fails)))
  {
    var r := s.saving.request;
    var v := Version(r.content, m);
    if Serve(s.disk, r, m, fails).Saved? {
      if !r.force { AcceptedIsBase(s, r); }
      RecordedOk(s, Success(r, s.disk));
      WrittenOk(s.(saving := NoSave, successes := s.successes + [Success(r, s.disk)]), v);
      assert v in s.versions + [v];
    }
  }

  lemma EndLoadOk(s: State, token: nat)
    requires Inv(s) && Enabled(s, EndLoad(token))
    ensures Inv(Apply(s, EndLoad(token)))
  {
    assert LoadOk(s.versions, s.disk, s.loads[token]);
  }

  lemma IssueOk(s: State, force: bool)
    requires Inv(s)
    ensures Inv(Issue(s, force))
  {
  }

  lemma EndSaveOk(s: State)
    requires Inv(s) && s.saving.Answered?
    ensures Inv(Apply(s, EndSave))
  {
  }

  /** A read that saw one version's time and another's content is dated by a time that has passed. */
  lemma ServeLoadOk(s: State, token: nat, r: Response)
    requires Inv(s) && Enabled(s, ServeLoad(token, r))
    ensures Inv(Apply(s, ServeLoad(token, r)))
  {
    assert LoadOk(s.versions, s.disk, s.loads[token]);
    if r.Loaded? && r.editable {
      var v :| TimeOf(s.versions, r.mtimeMs, v);
      if v == s.disk {
        assert Version(r.content, r.mtimeMs) == s.disk;
      }
      assert LoadOk(s.versions, s.disk, Ready(r));
    }
  }

  lemma StatFileOk(s: State, token: nat)
    requires Inv(s) && Enabled(s, StatFile(token))
    ensures Inv(Apply(s, StatFile(token)))
  {
    assert TimeOf(s.versions, s.disk.mtimeMs, s.disk);
  }

  lemma StepOk(s: State, e: Event)
    requires Inv(s) && Enabled(s, e) && Separates(s, e)
    ensures Inv(Apply(s, e))
  {
    match e
    case ServeSave(m, fails) => ServeSaveOk(s, m, fails);
    case Foreign(c, m) => WrittenOk(s, Version(c, m));
    case StatFile(token) => StatFileOk(s, token);
    case ServeLoad(token, r) => ServeLoadOk(s, token, r);
    case EndLoad(token) => EndLoadOk(s, token);
    case EndSave => EndSaveOk(s);
    case StartSave(force) => IssueOk(s, force);
    case Resolve(choice) =>
      if choice.Overwrite? { IssueOk(s.(tab := s.tab.(conflict := false)), true); } else { AsideOk(s, e); }
    case _ => AsideOk(s, e);
  }

  /** Events that neither issue nor answer anything: an editable tab keeps its original content and its time. */
  lemma {:induction false} AsideOk(s: State, e: Event)
    requires Inv(s) && Enabled(s, e)
    requires e.StartLoad? || e.StartReload? || e.Discard? || e.Abort? || e.Type? || (e.Resolve? && !e.choice.Overwrite?)
    ensures Inv(Apply(s, e))
  {
  }

  lemma {:induction false} RunOk(s: State, es: seq<Event>)
    requires Inv(s) && TimedRun(s, es)
    ensures Possible(s, es) && Inv(Run(s, es))
    decreases |es|
  {
    if es != [] {
      StepOk(s, es[0]);
      RunOk(Apply(s, es[0]), es[1..]);
    }
  }

  /**
    Every unforced save that went through replaced exactly the version whose content was the tab's original content
    when the save was issued, under any interleaving of loads, edits, other saves and foreign writes, as long as
    modification times tell versions apart. A load may even have met one version's time and another's content.
   */
  lemma {:induction false} UnforcedSavesReplaceTheirBase(v: Version, es: seq<Event>)
    requires TimedRun(Init(v), es)
    ensures Possible(Init(v), es)
    ensures forall x <- Run(Init(v), es).successes :: !x.request.force ==>
              x.request.base == Some(x.replaced.content) && x.request.expected == Some(x.replaced.mtimeMs)
  {
    RunOk(Init(v), es);
  }

  /**
    That assumption is exact: with a version on disk the tab has never shown, an unforced save overwrites it
    unseen if and only if its time is within a millisecond of the one the tab knows; otherwise it is kept.
   */
  lemma UnseenIsOverwrittenExactlyWithinTolerance(s: State, m: real)
    requires s.saving.NoSave? && MaySave(s.tab, false) && s.tab.mtimeMs.Some?
    requires s.tab.originalContent != Some(s.disk.content)
    ensures Enabled(s, StartSave(false)) && Enabled(Apply(s, StartSave(false)), ServeSave(m, false))
    ensures var t := Apply(Apply(s, StartSave(false)), ServeSave(m, false));
            var x := Success(Request(s.tab.content.value, s.tab.mtimeMs, false, s.tab.originalContent), s.disk);
            if Distance(s.disk.mtimeMs, s.tab.mtimeMs.value) <= 1.0
            then t.disk == Version(s.tab.content.value, m) && t.successes == s.successes + [x] && !SuccessOk(x)
            else t.disk == s.disk && t.successes == s.successes && t.saving == Answered(s.tab.content.value, Conflict)
  {
  }

  /** The tab loads a file, somebody else writes it, and the tab, edited, is saved. */
  function Overwriting(c: string, m: real, foreign: Version, edit: string, saved: real): seq<Event> {
    [StartLoad] + ([StatFile(1)] + ([ServeLoad(1, Loaded(c, m, true))] + ([EndLoad(1)] +
    ([Foreign(foreign.content, foreign.mtimeMs)] + ([Type(edit)] + ([StartSave(false)] + ([ServeSave(saved, false)] + [])))))))
  }

  lemma {:induction false} UnseenIsOverwrittenInARun(v: Version, foreign: Version, edit: string, saved: real)
    requires foreign.content != v.content && edit != v.content
    ensures var es := Overwriting(v.content, v.mtimeMs, foreign, edit, saved);
            && Possible(Init(v), es)
            && (Run(Init(v), es).disk == Version(edit, saved) && |Run(Init(v), es).successes| == 1
                && Run(Init(v), es).successes[0].replaced == foreign
                && Run(Init(v), es).successes[0].request.base == Some(v.content)
                <==> Distance(foreign.mtimeMs, v.mtimeMs) <= 1.0)
  {
    var s := LoadedState(v);
    var s5 := Apply(s, Foreign(foreign.content, foreign.mtimeMs));
    var s6 := Apply(s5, Type(edit));
    UnseenIsOverwrittenExactlyWithinTolerance(s6, saved);
    var s7 := Apply(s6, StartSave(false));
    RunStep(s7, ServeSave(saved, false), []);
    RunStep(s6, StartSave(false), [ServeSave(saved, false)] + []);
    var rest := [StartSave(false)] + ([ServeSave(saved, false)] + []);
    RunStep(s5, Type(edit), rest);
    RunStep(s, Foreign(foreign.content, foreign.mtimeMs), [Type(edit)] + rest);
    LoadRuns(v, [Foreign(foreign.content, foreign.mtimeMs)] + ([Type(edit)] + rest));
  }

  /** The state after the first load of the file. */
  function LoadedState(v: Version): State {
    var t := EmptyTab().(loadToken := 1, content := Some(v.content), originalContent := Some(v.content),
                         mtimeMs := Some(v.mtimeMs), editable := true);
    State(v, [v], t, map[], NoSave, [], false)
  }

  /** A run may begin by loading the file. */
  lemma {:induction false} LoadRuns(v: Version, es: seq<Event>)
    requires Possible(LoadedState(v), es)
    ensures var all := [StartLoad] + ([StatFile(1)] + ([ServeLoad(1, Loaded(v.content, v.mtimeMs, true))] + ([EndLoad(1)] + es)));
            Possible(Init(v), all) && Run(Init(v), all) == Run(LoadedState(v), es)
  {
    var r := ServeLoad(1, Loaded(v.content, v.mtimeMs, true));
    var s1 := Apply(Init(v), StartLoad);
    var s2 := Apply(s1, StatFile(1));
    var s3 := Apply(s2, r);
    assert Apply(s3, EndLoad(1)) == LoadedState(v);
    RunStep(s3, EndLoad(1), es);
    RunStep(s2, r, [EndLoad(1)] + es);
    RunStep(s1, StatFile(1), [r] + ([EndLoad(1)] + es));
    RunStep(Init(v), StartLoad, [StatFile(1)] + ([r] + ([EndLoad(1)] + es)));
  }

  // ---------------------------------------------------------------- answers that arrive

  /**
    A conflict that is answered with overwriting sends what is on screen, and the server writes it whatever stands
    on disk; the answer makes it the original content, known under its new time.
   */
  lemma {:induction false} OverwritingReachesTheDisk(s: State, m: real)
    requires s.saving.Resolving? && s.tab.dirty && s.tab.editable && s.tab.content.Some?
    ensures Enabled(s, Resolve(Overwrite)) && Enabled(Apply(s, Resolve(Overwrite)), ServeSave(m, false))
    ensures var t := Apply(Apply(s, Resolve(Overwrite)), ServeSave(m, false));
            && t.disk == Version(s.tab.content.value, m) && t.versions == s.versions + [t.disk]
            && Enabled(t, EndSave)
            && var u := Apply(t, EndSave);
               && u.tab.originalContent == Some(t.disk.content) && u.tab.mtimeMs == Some(m) && u.tab.content == s.tab.content
               && !u.tab.dirty && !u.tab.conflict && !u.tab.saving && u.saving == NoSave
  {
  }

  /** A save that is refused or fails leaves the disk, and the edits with their mark; a conflict is put to the user. */
  lemma {:induction false} RefusedSaveKeepsTheEdits(s: State, m: real)
    requires s.saving.NoSave? && MaySave(s.tab, false)
    ensures var t := Apply(Apply(Apply(s, StartSave(false)), ServeSave(m, true)), EndSave);
            t.disk == s.disk && t.tab == s.tab.(saving := false) && t.saving == NoSave
    ensures s.tab.mtimeMs.Some? && Distance(s.disk.mtimeMs, s.tab.mtimeMs.value) > 1.0 ==>
              var t := Apply(Apply(Apply(s, StartSave(false)), ServeSave(m, false)), EndSave);
              t.disk == s.disk && t.tab == s.tab.(saving := false, conflict := true) && t.saving == Resolving
  {
  }

  /** A conflict that is left ends the save and changes nothing, and one answered with reloading starts a load. */
  lemma {:induction false} LeavingAConflict(s: State)
    requires s.saving.Resolving?
    ensures Apply(s, Resolve(Leave)) == s.(saving := NoSave)
    ensures var t := Apply(s, Resolve(Reload));
            && t.saving == NoSave && t.disk == s.disk && t.tab.content == s.tab.content && t.tab.loading
            && !t.tab.conflict && t.tab.loadToken in t.loads && t.loads[t.tab.loadToken] == Asked
  {
  }

  /** What a save sends, and when it sends anything; a tab in conflict asks the user instead, unless it is forced. */
  lemma {:induction false} SaveSendsTheScreen(s: State, force: bool)
    requires s.saving.NoSave?
    ensures var t := Apply(s, StartSave(force));
            && (t.saving.Sent? <==> s.tab.dirty && s.tab.editable && s.tab.content.Some? && (s.tab.conflict ==> force))
            && (t.saving.Sent? ==> t.saving.request == Request(s.tab.content.value, s.tab.mtimeMs, force, s.tab.originalContent)
                                   && t.tab == s.tab.(saving := true))
            && (t.saving.Resolving? <==> s.tab.dirty && s.tab.conflict && !force)
            && (!t.saving.Sent? ==> t.tab == s.tab) && t.disk == s.disk
  {
  }

  /** An unforced save of a tab that knows no time is turned away. */
  lemma {:induction false} SaveWithoutTimeIsRejected(s: State, m: real, fails: bool)
    requires s.saving.Sent? && !s.saving.request.force && s.saving.request.expected.None?
    ensures var t := Apply(s, ServeSave(m, fails)); t.disk == s.disk && t.saving == Answered(s.saving.request.content, Rejected)
  {
  }

  /** A load that brings no text: a failed one changes nothing, a binary only ends editing, a lost conversion clears. */
  lemma {:induction false} LoadsWithoutText(s: State, token: nat)
    requires Enabled(s, EndLoad(token)) && token == s.tab.loadToken && !s.loads[token].response.Loaded?
    ensures var r, t := s.loads[token].response, Apply(s, EndLoad(token)).tab;
            && !t.loading && t.dirty == s.tab.dirty && t.mtimeMs == s.tab.mtimeMs && t.conflict == s.tab.conflict
            && t.editable == (r.LoadError? && s.tab.editable)
            && t.content == (if r.Unavailable? then None else s.tab.content)
            && t.originalContent == (if r.Unavailable? then None else s.tab.originalContent)
  {
  }

  /** Typing shows what is typed, against the original that stays. */
  lemma {:induction false} TypingShows(s: State, c: string)
    ensures var t := Apply(s, Type(c)).tab;
            t == s.tab.(content := Some(c), dirty := c != if s.tab.originalContent.Some? then s.tab.originalContent.value else "")
  {
  }

  /** A token that is no longer the newest stays outdated: what its load brings is never shown. */
  lemma {:induction false} OutdatedLoadIsNeverShown(s: State, es: seq<Event>, token: nat)
    requires Possible(s, es) && token < s.tab.loadToken && Enabled(Run(s, es), EndLoad(token))
    ensures Apply(Run(s, es), EndLoad(token)).tab == Run(s, es).tab
  {
    TokensGrow(s, es);
  }

  lemma {:induction false} TokensGrow(s: State, es: seq<Event>)
    requires Possible(s, es)
    ensures s.tab.loadToken <= Run(s, es).tab.loadToken
    decreases |es|
  {
    if es != [] { TokensGrow(Apply(s, es[0]), es[1..]); }
  }

  /** Aborting, loading again and reloading outdate the load before them, and the newest load is the one shown. */
  lemma {:induction false} NewestLoadIsShown(s: State, token: nat)
    requires token == s.tab.loadToken
    ensures token < Apply(s, Abort).tab.loadToken && token < Apply(s, StartLoad).tab.loadToken
    ensures Apply(s, Abort).tab.content == s.tab.content && Apply(s, Abort).tab.dirty == s.tab.dirty
    ensures !s.tab.dirty ==> token < Apply(s, StartReload).tab.loadToken
    ensures s.saving.Resolving? ==> token < Apply(s, Resolve(Reload)).tab.loadToken
    ensures Enabled(s, EndLoad(token)) && s.loads[token].response.Loaded? ==>
              var r, t := s.loads[token].response, Apply(s, EndLoad(token)).tab;
              && t.content == t.originalContent == Some(r.content) && t.mtimeMs == Some(r.mtimeMs)
              && t.editable == r.editable && !t.dirty && !t.conflict && !t.loading
  {
  }

  // ---------------------------------------------------------------- the dirty mark

  predicate Differs(t: Tab) {
    match t.content
    case None => t.originalContent.Some?
    case Some(c) => c != OriginalOrEmpty(t)
  }

  predicate MarkIsExact(s: State) { s.tab.dirty <==> Differs(s.tab) }

  /** The two steps that part the mark from the content: both happen to a tab with unsaved edits only. */
  ghost predicate Parts(s: State, e: Event)
    requires Enabled(s, e)
  {
    s.tab.dirty &&
    ((e.Resolve? && e.choice.Reload?) || (e.EndLoad? && e.token == s.tab.loadToken && s.loads[e.token].response.Unavailable?))
  }

  lemma SavingTells(s: State, e: Event)
    requires Enabled(s, e) && (e.StartSave? || e.ServeSave? || (e.Resolve? && !e.choice.Reload?))
    ensures Apply(s, e).lagging == s.lagging && (MarkIsExact(Apply(s, e)) <==> MarkIsExact(s))
  {
  }

  lemma {:induction false} EndLoadParts(s: State, token: nat)
    requires Enabled(s, EndLoad(token)) && MarkIsExact(s)
    ensures MarkIsExact(Apply(s, EndLoad(token))) <==> !Parts(s, EndLoad(token))
  {
    assert Apply(s, EndLoad(token)).tab == FinishLoad(s.tab, token, s.loads[token].response);
  }

  /** An exact mark stays exact through a step exactly when the step is neither of the two. */
  lemma {:induction false} MarkStaysExactExactlyUnless(s: State, e: Event)
    requires Enabled(s, e) && MarkIsExact(s)
    ensures MarkIsExact(Apply(s, e)) <==> !Parts(s, e)
  {
    if e.StartSave? || e.ServeSave? || (e.Resolve? && !e.choice.Reload?) {
      SavingTells(s, e);
    } else if e.EndLoad? {
      EndLoadParts(s, e.token);
    }
  }

  lemma {:induction false} EndLoadTells(s: State, token: nat)
    requires Enabled(s, EndLoad(token)) && (MarkIsExact(s) <==> !s.lagging)
    ensures MarkIsExact(Apply(s, EndLoad(token))) <==> !Apply(s, EndLoad(token)).lagging
  {
    assert Apply(s, EndLoad(token)).tab == FinishLoad(s.tab, token, s.loads[token].response);
  }

  lemma {:induction false} LaggingTells(s: State, e: Event)
    requires Enabled(s, e) && (MarkIsExact(s) <==> !s.lagging)
    ensures MarkIsExact(Apply(s, e)) <==> !Apply(s, e).lagging
  {
    if e.StartSave? || e.ServeSave? || (e.Resolve? && !e.choice.Reload?) {
      SavingTells(s, e);
    } else if e.EndLoad? {
      EndLoadTells(s, e.token);
    }
  }

  lemma {:induction false} LaggingTellsAlong(s: State, es: seq<Event>)
    requires Possible(s, es) && (MarkIsExact(s) <==> !s.lagging)
    ensures MarkIsExact(Run(s, es)) <==> !Run(s, es).lagging
    decreases |es|
  {
    if es != [] {
      LaggingTells(s, es[0]);
      LaggingTellsAlong(Apply(s, es[0]), es[1..]);
    }
  }

  /**
    After any run the dirty mark says whether the content differs from the original exactly when the history
    says so, which is kept without looking at any content: a reload out of a conflict parts an exact mark from a tab
    with unsaved edits, a load that shows nothing does, and an edit, a discard, a load of a file or a successful
    save join them again.
   */
  lemma {:induction false} DirtyIsExactExactlyUnlessLagging(v: Version, es: seq<Event>)
    requires Possible(Init(v), es)
    ensures MarkIsExact(Run(Init(v), es)) <==> !Run(Init(v), es).lagging
    // Right after a save that went through it always is.
    ensures var s := Run(Init(v), es);
            s.saving.Answered? && s.saving.result.Saved? ==>
              MarkIsExact(Apply(s, EndSave)) && Apply(s, EndSave).tab.originalContent == Some(s.saving.content)
  {
    LaggingTellsAlong(Init(v), es);
  }

  /** Without either step the mark is exact at the end of every run. */
  ghost predicate Untroubled(s: State, es: seq<Event>)
    decreases |es|
  {
    es == [] || (Enabled(s, es[0]) && !Parts(s, es[0]) && Untroubled(Apply(s, es[0]), es[1..]))
  }

  lemma {:induction false} UntroubledRunsKeepTheMark(s: State, es: seq<Event>)
    requires Untroubled(s, es) && MarkIsExact(s)
    ensures Possible(s, es) && MarkIsExact(Run(s, es))
    decreases |es|
  {
    if es != [] {
      MarkStaysExactExactlyUnless(s, es[0]);
      UntroubledRunsKeepTheMark(Apply(s, es[0]), es[1..]);
    }
  }

  /** A reload out of a conflict whose read fails. */
  function FailedReload(): seq<Event> {
    [Resolve(Reload)] + ([StatFile(2)] + ([ServeLoad(2, LoadError)] + ([EndLoad(2)] + [])))
  }

  /** The file is loaded, written by somebody else, edited, saved in vain, and reloaded in vain. */
  function ConflictThenFailedReload(v: Version, foreign: Version, edit: string): seq<Event> {
    [StartLoad] + ([StatFile(1)] + ([ServeLoad(1, Loaded(v.content, v.mtimeMs, true))] + ([EndLoad(1)] +
    ([Foreign(foreign.content, foreign.mtimeMs)] + ([Type(edit)] + ([StartSave(false)] +
    ([ServeSave(0.0, false)] + ([EndSave] + FailedReload()))))))))
  }

  /** The state in which the user is asked about the conflict. */
  function Conflicting(v: Version, foreign: Version, edit: string): State {
    var t := LoadedState(v).tab.(content := Some(edit), dirty := true, conflict := true);
    State(foreign, [v, foreign], t, map[], Resolving, [], false)
  }

  lemma {:induction false} FailedReloadRuns(s: State, edit: string)
    requires s.saving.Resolving? && s.tab.loadToken == 1 && s.tab.content == Some(edit)
    ensures Possible(s, FailedReload())
    ensures var t := Run(s, FailedReload());
            t.disk == s.disk && t.tab == s.tab.(conflict := false, dirty := false, loading := false, loadToken := 2)
  {
    var s1 := Apply(s, Resolve(Reload));
    var s2 := Apply(s1, StatFile(2));
    var s3 := Apply(s2, ServeLoad(2, LoadError));
    RunStep(s3, EndLoad(2), []);
    RunStep(s2, ServeLoad(2, LoadError), [EndLoad(2)] + []);
    RunStep(s1, StatFile(2), [ServeLoad(2, LoadError)] + ([EndLoad(2)] + []));
    RunStep(s, Resolve(Reload), [StatFile(2)] + ([ServeLoad(2, LoadError)] + ([EndLoad(2)] + [])));
  }

  lemma {:induction false} ConflictRuns(v: Version, foreign: Version, edit: string, es: seq<Event>)
    requires edit != v.content && Distance(foreign.mtimeMs, v.mtimeMs) > 1.0
    requires Possible(Conflicting(v, foreign, edit), es)
    ensures var all := [Foreign(foreign.content, foreign.mtimeMs)] + ([Type(edit)] + ([StartSave(false)] +
                       ([ServeSave(0.0, false)] + ([EndSave] + es))));
            Possible(LoadedState(v), all) && Run(LoadedState(v), all) == Run(Conflicting(v, foreign, edit), es)
  {
    var s := LoadedState(v);
    var s1 := Apply(s, Foreign(foreign.content, foreign.mtimeMs));
    var s2 := Apply(s1, Type(edit));
    var s3 := Apply(s2, StartSave(false));
    var s4 := Apply(s3, ServeSave(0.0, false));
    assert Apply(s4, EndSave) == Conflicting(v, foreign, edit);
    RunStep(s4, EndSave, es);
    RunStep(s3, ServeSave(0.0, false), [EndSave] + es);
    RunStep(s2, StartSave(false), [ServeSave(0.0, false)] + ([EndSave] + es));
    var rest := [StartSave(false)] + ([ServeSave(0.0, false)] + ([EndSave] + es));
    RunStep(s1, Type(edit), rest);
    RunStep(s, Foreign(foreign.content, foreign.mtimeMs), [Type(edit)] + rest);
  }

  /** It leaves the edits on screen with the mark gone, and on disk only what the other wrote. */
  lemma {:induction false} FailedReloadDropsTheMark(v: Version, foreign: Version, edit: string)
    requires edit != v.content && Distance(foreign.mtimeMs, v.mtimeMs) > 1.0
    ensures var es := ConflictThenFailedReload(v, foreign, edit);
            && Possible(Init(v), es)
            && Run(Init(v), es).tab.content == Some(edit) && Run(Init(v), es).disk == foreign
            && !Run(Init(v), es).tab.dirty && Differs(Run(Init(v), es).tab)
  {
    var s := Conflicting(v, foreign, edit);
    FailedReloadRuns(s, edit);
    ConflictRuns(v, foreign, edit, FailedReload());
    LoadRuns(v, [Foreign(foreign.content, foreign.mtimeMs)] + ([Type(edit)] + ([StartSave(false)] +
                ([ServeSave(0.0, false)] + ([EndSave] + FailedReload())))));
  }
}
