/**
  A user's saved agent settings: what may be stored, how saving and clearing change the row, and what
  a chat request resolves to (src/api/v1/agent/router.py, src/api/v1/agent/schema.py).
*/
module AgentSettings {
  import opened Wrappers
  import opened ChatModels

  type UserId = string

  datatype LlmConfig = LlmConfig(provider: string, model: string, apiKey: Option<string>, baseUrl: Option<string>)

  datatype SearchConfig = SearchConfig(provider: string, apiKey: string)

  // A row of agent_settings.
  datatype Row = Row(
    llmProvider: Option<string>, llmModel: Option<string>, llmApiKey: Option<string>, llmBaseUrl: Option<string>,
    searchProvider: Option<string>, searchApiKey: Option<string>)

  datatype Op =
    | Save(user: UserId, llm: Option<LlmConfig>, search: Option<SearchConfig>)
    | Clear(user: UserId, scope: Option<string>)

  datatype Status = Ok | Unprocessable

  datatype Resolved = Resolved(
    provider: string, model: string, apiKey: Option<string>, baseUrl: Option<string>, searchApiKey: Option<string>)

  const EMPTY_ROW := Row(None, None, None, None, None, None)

  /** LLMConfigIn._check_provider_requirements. */
  predicate MayBeStored(c: LlmConfig)
  {
    if c.provider == "openai_compatible" then Truthy(c.baseUrl)
    else c.model != "" && Truthy(c.apiKey)
  }

  predicate KnownScope(scope: Option<string>) { scope in {None, Some("llm"), Some("search")} }

  // ---------------------------------------------------------------- history

  function LlmAfter(earlier: Option<LlmConfig>, op: Op, user: UserId): Option<LlmConfig>
  {
    match op
    case Save(u, llm, _) => if u == user && llm.Some? then llm else earlier
    case Clear(u, scope) => if u == user && scope != Some("search") then None else earlier
  }

  function SearchAfter(earlier: Option<SearchConfig>, op: Op, user: UserId): Option<SearchConfig>
  {
    match op
    case Save(u, _, search) => if u == user && search.Some? then search else earlier
    case Clear(u, scope) => if u == user && scope != Some("llm") then None else earlier
  }

  /** The LLM configuration last saved by the user and not cleared since. */
  function SavedLlm(ops: seq<Op>, user: UserId): Option<LlmConfig>
  {
    if ops == [] then None else LlmAfter(SavedLlm(ops[..|ops| - 1], user), ops[|ops| - 1], user)
  }

  function SavedSearch(ops: seq<Op>, user: UserId): Option<SearchConfig>
  {
    if ops == [] then None else SearchAfter(SavedSearch(ops[..|ops| - 1], user), ops[|ops| - 1], user)
  }

  /** The operation `i` saved the configuration, and none after it of the same user replaced or cleared it. */
  ghost predicate LlmStands(ops: seq<Op>, user: UserId, i: nat, c: LlmConfig)
  {
    && i < |ops| && ops[i].Save? && ops[i].user == user && ops[i].llm == Some(c)
    && forall j :: i < j < |ops| && ops[j].user == user ==>
         if ops[j].Save? then ops[j].llm.None? else ops[j].scope == Some("search")
  }

  ghost predicate SearchStands(ops: seq<Op>, user: UserId, i: nat, c: SearchConfig)
  {
    && i < |ops| && ops[i].Save? && ops[i].user == user && ops[i].search == Some(c)
    && forall j :: i < j < |ops| && ops[j].user == user ==>
         if ops[j].Save? then ops[j].search.None? else ops[j].scope == Some("llm")
  }

  /** The saved configuration is the one that stands, and there is none exactly if none stands. */
  lemma {:induction false} SavedLlmStands(ops: seq<Op>, user: UserId, c: LlmConfig)
    ensures SavedLlm(ops, user) == Some(c) <==> exists i: nat :: LlmStands(ops, user, i, c)
  {
    if ops != [] {
      var front, n := ops[..|ops| - 1], |ops| - 1;
      SavedLlmStands(front, user, c);
      assert forall i: nat :: i < n ==> ops[i] == front[i];
      if SavedLlm(ops, user) == Some(c) {
        if ops[n].Save? && ops[n].user == user && ops[n].llm.Some? {
          assert LlmStands(ops, user, n, c);
        } else {
          var i :| LlmStands(front, user, i, c);
          assert LlmStands(ops, user, i, c);
        }
      }
      if i: nat :| LlmStands(ops, user, i, c) {
        if i < n { assert LlmStands(front, user, i, c); }
      }
    }
  }

  lemma {:induction false} SavedSearchStands(ops: seq<Op>, user: UserId, c: SearchConfig)
    ensures SavedSearch(ops, user) == Some(c) <==> exists i: nat :: SearchStands(ops, user, i, c)
  {
    if ops != [] {
      var front, n := ops[..|ops| - 1], |ops| - 1;
      SavedSearchStands(front, user, c);
      assert forall i: nat :: i < n ==> ops[i] == front[i];
      if SavedSearch(ops, user) == Some(c) {
        if ops[n].Save? && ops[n].user == user && ops[n].search.Some? {
          assert SearchStands(ops, user, n, c);
        } else {
          var i :| SearchStands(front, user, i, c);
          assert SearchStands(ops, user, i, c);
        }
      }
      if i: nat :| SearchStands(ops, user, i, c) {
        if i < n { assert SearchStands(front, user, i, c); }
      }
    }
  }

  lemma SavedAppend(ops: seq<Op>, op: Op, user: UserId)
    ensures SavedLlm(ops + [op], user) == LlmAfter(SavedLlm(ops, user), op, user)
    ensures SavedSearch(ops + [op], user) == SearchAfter(SavedSearch(ops, user), op, user)
  {
    assert (ops + [op])[..|ops|] == ops;
  }

  /** The row that holds exactly the given configurations. */
  function RowOf(llm: Option<LlmConfig>, search: Option<SearchConfig>): Row
  {
    var row := match search
               case None => EMPTY_ROW
               case Some(s) => EMPTY_ROW.(searchProvider := Some(s.provider), searchApiKey := Some(s.apiKey));
    match llm
    case None => row
    case Some(c) => row.(llmProvider := Some(c.provider), llmModel := Some(c.model),
                         llmApiKey := c.apiKey, llmBaseUrl := c.baseUrl)
  }

  /** A user's row, if any, holds what was last saved and not cleared; without one nothing is saved. */
  ghost predicate Holds(row: Option<Row>, llm: Option<LlmConfig>, search: Option<SearchConfig>)
  {
    && (llm.Some? ==> MayBeStored(llm.value))
    && match row
       case None => llm.None? && search.None?
       case Some(r) => r == RowOf(llm, search)
  }

  /** The row of a user after an operation of that user. */
  function Updated(row: Option<Row>, op: Op): Option<Row>
  {
    match op
    case Save(_, llm, search) =>
      var r := if row.Some? then row.value else EMPTY_ROW;
      var withLlm := match llm
                     case None => r
                     case Some(c) => r.(llmProvider := Some(c.provider), llmModel := Some(c.model),
                                        llmApiKey := c.apiKey, llmBaseUrl := c.baseUrl);
      Some(match search
           case None => withLlm
           case Some(c) => withLlm.(searchProvider := Some(c.provider), searchApiKey := Some(c.apiKey)))
    case Clear(_, scope) =>
      if row.None? || scope.None? then None
      else if scope == Some("llm") then
        Some(row.value.(llmProvider := None, llmModel := None, llmApiKey := None, llmBaseUrl := None))
      else Some(row.value.(searchProvider := None, searchApiKey := None))
  }

  function Lookup(rows: map<UserId, Row>, user: UserId): Option<Row>
  {
    if user in rows then Some(rows[user]) else None
  }

  ghost predicate Accepted(op: Op)
  {
    match op
    case Save(_, llm, search) => (llm.Some? || search.Some?) && (llm.Some? ==> MayBeStored(llm.value))
    case Clear(_, scope) => KnownScope(scope)
  }

  /** An operation leaves its user's row holding what that user has saved then. */
  lemma UpdatedHolds(row: Option<Row>, llm: Option<LlmConfig>, search: Option<SearchConfig>, op: Op)
    requires Holds(row, llm, search) && Accepted(op)
    ensures Holds(Updated(row, op), LlmAfter(llm, op, op.user), SearchAfter(search, op, op.user))
  {
  }

  /** The same in terms of the history, for any user. */
  lemma HoldsAfter(row: Option<Row>, after: Option<Row>, ops: seq<Op>, op: Op, user: UserId)
    requires Holds(row, SavedLlm(ops, user), SavedSearch(ops, user)) && Accepted(op)
    requires after == if user == op.user then Updated(row, op) else row
    ensures Holds(after, SavedLlm(ops + [op], user), SavedSearch(ops + [op], user))
  {
    SavedAppend(ops, op, user);
    if user == op.user {
      UpdatedHolds(row, SavedLlm(ops, user), SavedSearch(ops, user), op);
    }
  }

  // ---------------------------------------------------------------- resolving a request

  /** _resolve_agent_settings on the user's row, if any. */
  function Resolve(stored: Option<Row>, provider: Option<string>, model: Option<string>): Result<Resolved, Status>
  {
    var row := if stored.Some? then stored.value else EMPTY_ROW;
    var p := Or(provider, if stored.Some? then row.llmProvider else None);
    var m := Or(model, if stored.Some? then row.llmModel else None);
    var same := stored.Some? && row.llmProvider == p;
    var apiKey := if same then row.llmApiKey else None;
    var baseUrl := if same then row.llmBaseUrl else None;
    var searchApiKey := if stored.Some? then row.searchApiKey else None;
    if p == Some("openai_compatible") then
      var name := Or(m, Some(DEFAULT_LOCAL_MODEL));
      if Truthy(baseUrl) then Success(Resolved(p.value, name.value, apiKey, baseUrl, searchApiKey))
      else Failure(Unprocessable)
    else if Truthy(p) && Truthy(m) && Truthy(apiKey) then
      Success(Resolved(p.value, m.value, apiKey, baseUrl, searchApiKey))
    else Failure(Unprocessable)
  }

  /** What a request gets from a saved configuration, whatever it overrides. */
  lemma ResolveUsesWhatWasSaved(llm: Option<LlmConfig>, search: Option<SearchConfig>,
                                provider: Option<string>, model: Option<string>)
    requires llm.Some? ==> MayBeStored(llm.value)
    ensures var r := Resolve(Some(RowOf(llm, search)), provider, model);
      // Exactly when it succeeds: something is saved under a name, and the override does not switch provider.
      && (r.Success? <==>
            && llm.Some? && llm.value.provider != ""
            && (Truthy(provider) ==> provider.value == llm.value.provider))
      && (r.Success? ==>
            // The provider, key and URL were written together.
            && r.value.provider == llm.value.provider
            && r.value.apiKey == llm.value.apiKey
            && r.value.baseUrl == llm.value.baseUrl
            && r.value.searchApiKey == (if search.Some? then Some(search.value.apiKey) else None)
            && r.value.model != ""
            && (Truthy(model) ==> r.value.model == model.value)
            && (!Truthy(model) && llm.value.model != "" ==> r.value.model == llm.value.model)
            && (!Truthy(model) && llm.value.model == "" ==> r.value.model == "local-model")
            // With a supported provider the model can be built.
            && (BuildChatModel(r.value.provider, r.value.model, r.value.apiKey, r.value.baseUrl).Success? <==>
                  Supported(llm.value.provider)))
  {
    if llm.Some? && llm.value.provider == "openai_compatible" {
      assert Truthy(llm.value.baseUrl);
    }
  }

  /** The validator lets through exactly the named configurations that a request without overrides can use. */
  lemma StoredExactlyIfUsable(c: LlmConfig)
    requires c.provider != ""
    ensures MayBeStored(c) <==> Resolve(Some(RowOf(Some(c), None)), None, None).Success?
  {
  }

  lemma ResolveNeedsARow(provider: Option<string>, model: Option<string>)
    ensures Resolve(None, provider, model).Failure?
  {
  }

  // ---------------------------------------------------------------- the table

  class Store {
    var rows: map<UserId, Row>
    ghost var ops: seq<Op>

    constructor ()
      ensures Valid() && ops == []
    {
      rows, ops := map[], [];
    }

    ghost predicate Valid()
      reads this
    {
      forall user :: Holds(Lookup(rows, user), SavedLlm(ops, user), SavedSearch(ops, user))
    }

    /** set_agent_settings: an upsert of the parts that were sent. Sent configurations passed the validator. */
    method Save(user: UserId, llm: Option<LlmConfig>, search: Option<SearchConfig>) returns (status: Status)
      requires Valid() && (llm.Some? ==> MayBeStored(llm.value))
      modifies this
      ensures Valid()
      ensures status == if llm.None? && search.None? then Unprocessable else Ok
      ensures ops == if status == Ok then old(ops) + [Op.Save(user, llm, search)] else old(ops)
      ensures status == Ok ==> user in rows
      ensures status == Unprocessable ==> rows == old(rows)
      ensures forall other :: other != user ==> (other in rows <==> other in old(rows))
      ensures forall other :: other != user && other in rows ==> rows[other] == old(rows)[other]
    {
      if llm.None? && search.None? {
        return Unprocessable;
      }
      var row := if user in rows then rows[user] else EMPTY_ROW;
      if llm.Some? {
        row := row.(llmProvider := Some(llm.value.provider), llmModel := Some(llm.value.model),
                    llmApiKey := llm.value.apiKey, llmBaseUrl := llm.value.baseUrl);
      }
      if search.Some? {
        row := row.(searchProvider := Some(search.value.provider), searchApiKey := Some(search.value.apiKey));
      }
      rows := rows[user := row];
      Note(Op.Save(user, llm, search), old(rows));
      status := Ok;
    }

    /** Records an operation that the program has just carried out on `before`. */
    ghost method Note(op: Op, before: map<UserId, Row>)
      requires Accepted(op)
      requires forall user :: Holds(Lookup(before, user), SavedLlm(ops, user), SavedSearch(ops, user))
      requires Lookup(rows, op.user) == Updated(Lookup(before, op.user), op)
      requires forall other :: other != op.user ==> Lookup(rows, other) == Lookup(before, other)
      modifies this`ops
      ensures Valid() && ops == old(ops) + [op]
    {
      forall user
        ensures Holds(Lookup(rows, user), SavedLlm(ops + [op], user), SavedSearch(ops + [op], user))
      {
        HoldsAfter(Lookup(before, user), Lookup(rows, user), ops, op, user);
      }
      ops := ops + [op];
    }

    /** clear_agent_settings. */
    method Clear(user: UserId, scope: Option<string>) returns (status: Status)
      requires Valid()
      modifies this
      ensures Valid()
      ensures status == if scope in {None, Some("llm"), Some("search")} then Ok else Unprocessable
      ensures ops == if status == Ok then old(ops) + [Op.Clear(user, scope)] else old(ops)
      ensures status == Unprocessable ==> rows == old(rows)
      ensures forall other :: other != user ==> (other in rows <==> other in old(rows))
      ensures forall other :: other != user && other in rows ==> rows[other] == old(rows)[other]
    {
      if scope !in {None, Some("llm"), Some("search")} {
        return Unprocessable;
      }
      if user in rows {
        if scope == None {
          rows := rows - {user};
        } else if scope == Some("llm") {
          var row := rows[user];
          rows := rows[user := row.(llmProvider := None, llmModel := None, llmApiKey := None, llmBaseUrl := None)];
        } else {
          rows := rows[user := rows[user].(searchProvider := None, searchApiKey := None)];
        }
      }
      Note(Op.Clear(user, scope), old(rows));
      status := Ok;
    }

    /** A chat request resolves to what its user last saved, and to nothing else. */
    method ResolveAgentSettings(user: UserId, provider: Option<string>, model: Option<string>)
      returns (r: Result<Resolved, Status>)
      requires Valid()
      ensures var llm := SavedLlm(ops, user);
        && (r.Success? <==>
              llm.Some? && llm.value.provider != "" && (Truthy(provider) ==> provider.value == llm.value.provider))
        && (r.Success? ==>
              && r.value.provider == llm.value.provider
              && r.value.apiKey == llm.value.apiKey && r.value.baseUrl == llm.value.baseUrl
              && r.value.searchApiKey == (match SavedSearch(ops, user) case None => None case Some(c) => Some(c.apiKey))
              && r.value.model != ""
              && (Truthy(model) ==> r.value.model == model.value)
              && (!Truthy(model) && llm.value.model != "" ==> r.value.model == llm.value.model)
              && (!Truthy(model) && llm.value.model == "" ==> r.value.model == "local-model")
              && (Supported(r.value.provider) ==>
                    BuildChatModel(r.value.provider, r.value.model, r.value.apiKey, r.value.baseUrl).Success?))
    {
      assert Holds(Lookup(rows, user), SavedLlm(ops, user), SavedSearch(ops, user));
      r := Resolve(Lookup(rows, user), provider, model);
      ResolveUsesWhatWasSaved(SavedLlm(ops, user), SavedSearch(ops, user), provider, model);
      ResolveNeedsARow(provider, model);
    }
  }
}
