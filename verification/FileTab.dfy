/** The panel's operations on one tab, cut at their awaits, in the source's imperative form. */
module FileTab {
  import opened FileSave
  import opened Wrappers

  class FilePreviewTab {
    var content: Option<string>
    var originalContent: Option<string>
    var mtimeMs: Option<real>
    var editable: bool
    var dirty: bool
    var conflict: bool
    var loading: bool
    var saving: bool
    var loadToken: nat

    ghost function Now(): Tab
      reads this
    {
      Tab(content, originalContent, mtimeMs, editable, dirty, conflict, loading, saving, loadToken)
    }

    constructor () ensures Now() == EmptyTab() {
      content, originalContent, mtimeMs := None, None, None;
      editable, dirty, conflict, loading, saving, loadToken := false, false, false, false, false, 0;
    }

    /** Starts a load; whatever was on its way before it is outdated from now on. */
    method LoadTabContent() returns (token: nat)
      modifies this
      ensures Now() == BeginLoad(old(Now())) && token == loadToken
    {
      token := loadToken + 1;
      loadToken := token;
      loading := true;
    }

    method AbortTabLoad()
      modifies this
      ensures Now() == AbortLoad(old(Now()))
    {
      loadToken := loadToken + 1;
      if content.None? && loading { loading := false; }
    }

    method FinishTabLoad(token: nat, r: Response) returns (used: bool)
      modifies this
      ensures Now() == FinishLoad(old(Now()), token, r)
      ensures used <==> token == old(loadToken) && r.Loaded?
      ensures used ==> !dirty && !Differs(Now())
    {
      if loadToken != token { return false; }
      loading := false;
      match r {
        case LoadError => return false;
        case Binary => editable := false; return false;
        case Unavailable =>
          content, originalContent, editable := None, None, false;
          return false;
        case Loaded(c, m, e) =>
          content, originalContent, mtimeMs, editable := Some(c), Some(c), Some(m), e;
          dirty, conflict := false, false;
          return true;
      }
    }

    method OnChange(newContent: string)
      modifies this
      ensures Now() == Edit(old(Now()), newContent)
      ensures dirty <==> Differs(Now())
    {
      dirty := newContent != (if originalContent.Some? then originalContent.value else "");
      content := Some(newContent);
    }

    /** Reloads, unless there are unsaved edits to ask about first; a conflict that is already answered skips that. */
    method ReloadTab(skipConfirmation: bool) returns (token: Option<nat>)
      modifies this
      ensures token.Some? <==> old(dirty) ==> skipConfirmation
      ensures Now() == if token.Some? then BeginReload(old(Now())) else old(Now())
      ensures token.Some? ==> token.value == loadToken
      // What is on screen stays, its mark goes.
      ensures token.Some? ==> !dirty && (Differs(Now()) <==> old(Differs(Now())))
    {
      if dirty && !skipConfirmation { return None; }
      conflict, dirty := false, false;
      var started := LoadTabContent();
      return Some(started);
    }

    /** The answer that gives the edits up. */
    method DiscardEdits()
      modifies this
      ensures Now() == Discarded(old(Now()))
      ensures !dirty && !Differs(Now())
    {
      content := Some(if originalContent.Some? then originalContent.value else "");
      dirty, conflict := false, false;
    }

    /** What is sent to the server, or nothing when there is nothing to save or it may not be saved. */
    method PerformSave(force: bool) returns (request: Option<Request>)
      modifies this
      ensures request.Some? <==> MaySave(old(Now()), force)
      ensures request.Some? ==> request.value == Request(old(content).value, old(mtimeMs), force, old(originalContent))
      ensures Now() == if request.Some? then old(Now()).(saving := true) else old(Now())
    {
      if !dirty { return None; }
      if content.None? || !editable { return None; }
      if conflict && !force { return None; }
      saving := true;
      return Some(Request(content.value, mtimeMs, force, originalContent));
    }

    method FinishPerformSave(savedContent: string, r: SaveResult) returns (ok: bool)
      modifies this
      ensures Now() == FinishSave(old(Now()), savedContent, r)
      ensures ok <==> r.Saved?
      ensures ok ==> originalContent == Some(savedContent) && (dirty <==> Differs(Now()))
    {
      saving := false;
      match r {
        case Conflict => conflict := true; return false;
        case Rejected => return false;
        case Saved(m) =>
          dirty := content != Some(savedContent);
          conflict, mtimeMs, originalContent := false, Some(m), Some(savedContent);
          return true;
      }
    }
  }
}
