/**
 * The phrases page: the search filters, loading the list, and the
 * create / edit / delete flows with their notices and errors. The server is
 * an oracle whose answers are parameters; every call the page makes is
 * appended to a log so that "no call was made" can be stated.
 */
module PhrasesPage {
  import opened Wrappers
  import opened JsString
  import opened PhrasesApi

  const LOAD_FAILED := "Failed to load phrases"
  const LOAD_ONE_FAILED := "Failed to load phrase"
  const DELETE_FAILED := "Failed to delete phrase"
  const CREATED := "Phrase created"
  const UPDATED := "Phrase updated"
  const DELETED := "Phrase deleted"

  /** A call to the phrases API, as the page issues it. */
  datatype ApiCall =
    | ListCall(params: ListParams)
    | GetCall(id: string)
    | CreateCall(payload: PhrasePayload)
    | UpdateCall(id: string, payload: PhrasePayload)
    | RemoveCall(id: string)

  /** `s.trim() || undefined`. */
  function TrimmedOrAbsent(s: string): Option<string>
  {
    var t := Trim(s);
    if t != [] then Some(t) else None
  }

  /** The `filters` memo. */
  function Filters(q: string, category: string): (f: ListParams)
    ensures f.q.Some? ==> f.q.value != [] && Trimmed(f.q.value)
    ensures f.category.Some? ==> f.category.value != [] && Trimmed(f.category.value)
  {
    ListParams(TrimmedOrAbsent(q), TrimmedOrAbsent(category))
  }

  /** Each filter is the trimmed input, or undefined when the input is blank. */
  lemma FiltersTrimmed(q: string, category: string)
    ensures var f := Filters(q, category);
      && (f.q.None? <==> Blank(q))
      && (f.category.None? <==> Blank(category))
      && (f.q.Some? ==> f.q.value == Trim(q) && Trimmed(f.q.value))
      && (f.category.Some? ==> f.category.value == Trim(category) && Trimmed(f.category.value))
  {
  }

  /** A filter is never the empty string, so every defined filter reaches the query string. */
  lemma FiltersArePresent(q: string, category: string)
    ensures Present(Filters(q, category).q) <==> !Blank(q)
    ensures Present(Filters(q, category).category) <==> !Blank(category)
  {
  }

  /** White space around the search inputs does not change the request. */
  lemma FiltersIgnoreSurroundingSpace(q: string, category: string)
    ensures Filters(Trim(q), Trim(category)) == Filters(q, category)
  {
    TrimIdempotent(q);
    TrimIdempotent(category);
  }

  /** `phrases.find((x) => x.id === id)`. */
  function FindPhrase(ps: seq<Phrase>, id: string): (r: Option<Phrase>)
    ensures r.None? <==> forall i :: 0 <= i < |ps| ==> ps[i].id != id
    ensures r.Some? ==> r.value in ps && r.value.id == id
    ensures r.Some? ==> exists i :: 0 <= i < |ps| && ps[i] == r.value && forall j :: 0 <= j < i ==> ps[j].id != id
  {
    if ps == [] then None
    else if ps[0].id == id then
      Some(ps[0])
    else
      var r := FindPhrase(ps[1..], id);
      if r.Some? then
        FindPhraseShift(ps, id, r.value);
        r
      else
        r
  }

  lemma FindPhraseShift(ps: seq<Phrase>, id: string, p: Phrase)
    requires ps != [] && ps[0].id != id
    requires exists i :: 0 <= i < |ps[1..]| && ps[1..][i] == p && forall j :: 0 <= j < i ==> ps[1..][j].id != id
    ensures exists i :: 0 <= i < |ps| && ps[i] == p && forall j :: 0 <= j < i ==> ps[j].id != id
  {
    var i :| 0 <= i < |ps[1..]| && ps[1..][i] == p && forall j :: 0 <= j < i ==> ps[1..][j].id != id;
    assert ps[i + 1] == p;
    forall j | 0 <= j < i + 1
      ensures ps[j].id != id
    {
      if j > 0 {
        assert ps[j] == ps[1..][j - 1];
      }
    }
  }

  const CONFIRM_PREFIX := "Delete phrase \""
  const CONFIRM_SUFFIX := "\"?"

  /** What the confirmation names: the text of the listed phrase with that id, or the id itself. */
  function ConfirmSubject(ps: seq<Phrase>, id: string): (s: string)
    ensures (forall i :: 0 <= i < |ps| ==> ps[i].id != id) ==> s == id
    ensures (exists i :: 0 <= i < |ps| && ps[i].id == id) ==> exists p :: p in ps && p.id == id && s == p.text
  {
    match FindPhrase(ps, id)
    case Some(p) => p.text
    case None => id
  }

  /** The question `window.confirm` asks before a delete. */
  function ConfirmMessage(ps: seq<Phrase>, id: string): (m: string)
    ensures |m| == |CONFIRM_PREFIX| + |ConfirmSubject(ps, id)| + |CONFIRM_SUFFIX|
    ensures m[..|CONFIRM_PREFIX|] == CONFIRM_PREFIX
    ensures m[|CONFIRM_PREFIX|..|m| - |CONFIRM_SUFFIX|] == ConfirmSubject(ps, id)
    ensures m[|m| - |CONFIRM_SUFFIX|..] == CONFIRM_SUFFIX
  {
    CONFIRM_PREFIX + ConfirmSubject(ps, id) + CONFIRM_SUFFIX
  }

  /** The state of the page. */
  class Page {
    /** The two filter inputs. */
    var q: string
    var category: string
    var phrases: seq<Phrase>
    var loading: bool
    var error: Option<string>
    var notice: Option<string>
    var editingId: Option<string>
    var editingPhrase: Option<Phrase>
    /** Every API call made, oldest first. */
    var calls: seq<ApiCall>

    constructor ()
      ensures q == "" && category == "" && phrases == [] && !loading
      ensures error == None && notice == None && editingId == None && editingPhrase == None
      ensures calls == []
    {
      q := "";
      category := "";
      phrases := [];
      loading := false;
      error := None;
      notice := None;
      editingId := None;
      editingPhrase := None;
      calls := [];
    }

    /** `if (!editingId)`: the page is in edit mode when the id is defined and non-empty. */
    predicate Editing()
      reads this
    {
      editingId.Some? && editingId.value != ""
    }

    /**
     * Typing into the search box. The load effect depends on the two
     * filters, so `reload` says whether this keystroke re-runs `load`:
     * exactly when the trimmed query changes.
     */
    method EditQuery(value: string) returns (reload: bool)
      modifies this`q
      ensures q == value
      ensures reload <==> Trim(old(q)) != Trim(value)
    {
      reload := Filters(q, category) != Filters(value, category);
      q := value;
    }

    /** Typing into the category box; `reload` as for the search box. */
    method EditCategory(value: string) returns (reload: bool)
      modifies this`category
      ensures category == value
      ensures reload <==> Trim(old(category)) != Trim(value)
    {
      reload := Filters(q, category) != Filters(q, value);
      category := value;
    }

    /** `showNotice`, up to the timer it sets. */
    method ShowNotice(message: string)
      modifies this`notice
      ensures notice == Some(message)
    {
      notice := Some(message);
    }

    /** The notice timer fires. */
    method NoticeExpired()
      modifies this`notice
      ensures notice == None
    {
      notice := None;
    }

    /** `load` up to its `await`: the error is cleared and the list is requested with the current filters. */
    method BeginLoad()
      modifies this`error, this`loading, this`calls
      ensures error == None && loading
      ensures calls == old(calls) + [ListCall(Filters(q, category))]
    {
      var f := Filters(q, category);
      error := None;
      loading := true;
      calls := calls + [ListCall(f)];
    }

    /** `load` after its `await`: the list is replaced on success, the error set on failure, and loading ends. */
    method LoadSettled(res: Result<seq<Phrase>, Thrown>)
      modifies this`phrases, this`error, this`loading
      ensures !loading
      ensures res.Success? ==> phrases == res.value && error == old(error)
      ensures res.Failure? ==> phrases == old(phrases) && error == Some(MessageOr(res.error, LOAD_FAILED))
    {
      match res {
        case Success(data) => phrases := data;
        case Failure(e) => error := Some(MessageOr(e, LOAD_FAILED));
      }
      loading := false;
    }

    /** A whole `load`. */
    method Load(res: Result<seq<Phrase>, Thrown>)
      modifies this`phrases, this`error, this`loading, this`calls
      ensures calls == old(calls) + [ListCall(Filters(q, category))]
      ensures !loading
      ensures res.Success? ==> phrases == res.value && error == None
      ensures res.Failure? ==> phrases == old(phrases) && error == Some(MessageOr(res.error, LOAD_FAILED))
    {
      var p0 := phrases;
      BeginLoad();
      assert error == None && phrases == p0;
      LoadSettled(res);
    }

    /** `startEdit` up to its `await`: edit mode for `id`, with no phrase loaded yet. */
    method BeginEdit(id: string)
      modifies this`error, this`editingId, this`editingPhrase, this`calls
      ensures error == None && editingId == Some(id) && editingPhrase == None
      ensures calls == old(calls) + [GetCall(id)]
    {
      error := None;
      editingId := Some(id);
      editingPhrase := None;
      calls := calls + [GetCall(id)];
    }

    /** `startEdit` after its `await`: the phrase fills the form, or edit mode ends with an error. */
    method EditFetched(res: Result<Phrase, Thrown>)
      modifies this`error, this`editingId, this`editingPhrase
      ensures res.Success? ==> editingPhrase == Some(res.value) && editingId == old(editingId) && error == old(error)
      ensures res.Failure? ==> editingId == None && editingPhrase == old(editingPhrase)
      ensures res.Failure? ==> error == Some(MessageOr(res.error, LOAD_ONE_FAILED))
    {
      match res {
        case Success(p) => editingPhrase := Some(p);
        case Failure(e) =>
          error := Some(MessageOr(e, LOAD_ONE_FAILED));
          editingId := None;
      }
    }

    /** A whole `startEdit`. */
    method StartEdit(id: string, res: Result<Phrase, Thrown>)
      modifies this`error, this`editingId, this`editingPhrase, this`calls
      ensures calls == old(calls) + [GetCall(id)]
      ensures res.Success? ==> editingId == Some(id) && editingPhrase == Some(res.value) && error == None
      ensures res.Failure? ==> editingId == None && editingPhrase == None
      ensures res.Failure? ==> error == Some(MessageOr(res.error, LOAD_ONE_FAILED))
    {
      BeginEdit(id);
      EditFetched(res);
    }

    /** `cancelEdit`. */
    method CancelEdit()
      modifies this`editingId, this`editingPhrase
      ensures editingId == None && editingPhrase == None
    {
      editingId := None;
      editingPhrase := None;
    }

    /**
     * `createPhrase`: a rejected create propagates to the form (returned here)
     * and changes nothing else; otherwise the notice is shown and the list reloaded.
     */
    method CreatePhrase(values: PhrasePayload, created: Outcome<Thrown>, listed: Result<seq<Phrase>, Thrown>)
      returns (o: Outcome<Thrown>)
      modifies this`phrases, this`error, this`loading, this`calls, this`notice
      ensures o == created
      ensures created.Fail? ==> calls == old(calls) + [CreateCall(values)]
      ensures created.Fail? ==> phrases == old(phrases) && error == old(error) && loading == old(loading) && notice == old(notice)
      ensures created.Pass? ==> calls == old(calls) + [CreateCall(values), ListCall(Filters(q, category))]
      ensures created.Pass? ==> notice == Some(CREATED) && !loading
      ensures created.Pass? && listed.Success? ==> phrases == listed.value && error == None
      ensures created.Pass? && listed.Failure? ==> phrases == old(phrases) && error == Some(MessageOr(listed.error, LOAD_FAILED))
    {
      calls := calls + [CreateCall(values)];
      if created.Fail? {
        return created;
      }
      ShowNotice(CREATED);
      Load(listed);
      o := Pass;
    }

    /**
     * `updatePhrase`: nothing at all outside edit mode; otherwise the update is
     * sent, and when it succeeds the notice is shown, edit mode ends and the
     * list is reloaded.
     */
    method UpdatePhrase(values: PhrasePayload, updated: Outcome<Thrown>, listed: Result<seq<Phrase>, Thrown>)
      returns (o: Outcome<Thrown>)
      modifies this`phrases, this`error, this`loading, this`calls, this`notice, this`editingId, this`editingPhrase
      ensures !old(Editing()) ==> o == Pass && unchanged(this)
      ensures old(Editing()) ==> o == updated
      ensures old(Editing()) && updated.Fail? ==> calls == old(calls) + [UpdateCall(old(editingId).value, values)]
      ensures old(Editing()) && updated.Fail? ==>
        phrases == old(phrases) && error == old(error) && loading == old(loading) && notice == old(notice)
        && editingId == old(editingId) && editingPhrase == old(editingPhrase)
      ensures old(Editing()) && updated.Pass? ==>
        calls == old(calls) + [UpdateCall(old(editingId).value, values), ListCall(Filters(q, category))]
      ensures old(Editing()) && updated.Pass? ==>
        notice == Some(UPDATED) && editingId == None && editingPhrase == None && !loading
      ensures old(Editing()) && updated.Pass? && listed.Success? ==> phrases == listed.value && error == None
      ensures old(Editing()) && updated.Pass? && listed.Failure? ==>
        phrases == old(phrases) && error == Some(MessageOr(listed.error, LOAD_FAILED))
    {
      if !Editing() {
        return Pass;
      }
      calls := calls + [UpdateCall(editingId.value, values)];
      if updated.Fail? {
        return updated;
      }
      ShowNotice(UPDATED);
      CancelEdit();
      Load(listed);
      o := Pass;
    }

    /**
     * `deletePhrase`: the user is asked first, and declining changes nothing
     * and calls nothing. A rejected delete is reported on the page; a
     * successful one shows the notice and reloads the list.
     */
    method DeletePhrase(id: string, confirm: string -> bool, removed: Outcome<Thrown>, listed: Result<seq<Phrase>, Thrown>)
      modifies this`phrases, this`error, this`loading, this`calls, this`notice
      ensures !confirm(ConfirmMessage(old(phrases), id)) ==> unchanged(this)
      ensures confirm(ConfirmMessage(old(phrases), id)) && removed.Fail? ==>
        calls == old(calls) + [RemoveCall(id)] && phrases == old(phrases) && notice == old(notice)
        && loading == old(loading) && error == Some(MessageOr(removed.error, DELETE_FAILED))
      ensures confirm(ConfirmMessage(old(phrases), id)) && removed.Pass? ==>
        calls == old(calls) + [RemoveCall(id), ListCall(Filters(q, category))]
        && notice == Some(DELETED) && !loading
      ensures confirm(ConfirmMessage(old(phrases), id)) && removed.Pass? && listed.Success? ==>
        phrases == listed.value && error == None
      ensures confirm(ConfirmMessage(old(phrases), id)) && removed.Pass? && listed.Failure? ==>
        phrases == old(phrases) && error == Some(MessageOr(listed.error, LOAD_FAILED))
    {
      var ok := confirm(ConfirmMessage(phrases, id));
      if !ok {
        return;
      }
      calls := calls + [RemoveCall(id)];
      match removed {
        case Fail(e) =>
          error := Some(MessageOr(e, DELETE_FAILED));
        case Pass =>
          ShowNotice(DELETED);
          Load(listed);
      }
    }
  }
}
