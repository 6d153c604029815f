/** The idempotent in-memory CRM (app/crm/mock.py) and the remote ledger it implements. */
module MockCrm {
  import opened Common
  import opened CrmRecords
  import CrmWorld

  datatype SubmitResult = Accepted(result: CrmResult) | Rejected

  const REQUIRED_FIELDS: set<string> := {"source", "contactName", "contactTitle", "communicationWay", "mobile", "remark"}

  function FieldOf(payload: Payload, name: string): string {
    if name in payload.fields then payload.fields[name] else ""
  }

  /** The minimum the create endpoint asks for; empty text counts as missing. */
  predicate MeetsMinimum(payload: Payload) {
    && payload.name != ""
    && (FieldOf(payload, "businessLine") != "" || FieldOf(payload, "product_line_data_permission") != "")
    && forall f :: f in REQUIRED_FIELDS ==> FieldOf(payload, f) != ""
  }

  /** One call of `submit_lead`, as it reached the adapter. */
  datatype Submission = Submission(key: Key, payload: Payload, user: string)

  /** What the ledger holds after some calls, with `identity` naming the lead made for a key. */
  function LedgerAfter(history: seq<Submission>, identity: Key -> string): map<Key, CrmResult> {
    if history == [] then map[]
    else
      var before := LedgerAfter(history[..|history| - 1], identity);
      var last := history[|history| - 1];
      if last.key in before || !MeetsMinimum(last.payload) then before
      else before[last.key := CrmResult(Some(identity(last.key)), Some(last.user), false, CreatedAction)]
  }

  /** The keys, in order, for which a lead was really created. */
  function CreatedKeys(history: seq<Submission>, identity: Key -> string): seq<Key> {
    if history == [] then []
    else
      var before := CreatedKeys(history[..|history| - 1], identity);
      var last := history[|history| - 1];
      if last.key in LedgerAfter(history[..|history| - 1], identity) || !MeetsMinimum(last.payload)
      then before else before + [last.key]
  }

  /** However often a key is submitted, at most one lead is created for it, and the ledger lists exactly those. */
  lemma {:induction false} OneCreationPerKey(history: seq<Submission>, identity: Key -> string)
    ensures var created := CreatedKeys(history, identity);
            && (forall key :: key in created <==> key in LedgerAfter(history, identity))
            && forall i, j :: 0 <= i < j < |created| ==> created[i] != created[j]
  {
    if history != [] {
      OneCreationPerKey(history[..|history| - 1], identity);
    }
  }

  /** The first acceptable submission under a key decides its result; later ones, whatever they carry, cannot. */
  lemma {:induction false} FirstSubmissionDecides(
    history: seq<Submission>, more: seq<Submission>, identity: Key -> string, key: Key)
    requires key in LedgerAfter(history, identity)
    ensures key in LedgerAfter(history + more, identity)
    ensures LedgerAfter(history + more, identity)[key] == LedgerAfter(history, identity)[key]
  {
    if more == [] {
      assert history + more == history;
    } else {
      FirstSubmissionDecides(history, more[..|more| - 1], identity, key);
      assert (history + more)[..|history + more| - 1] == history + more[..|more| - 1];
    }
  }

  /** Composed with the protocol, the adapter is one of the remotes `CrmWorld` allows. */
  lemma AdapterIsARemote(
    cfg: Config, w: CrmWorld.World, q: nat, history: seq<Submission>, identity: Key -> string)
    requires q < |w.log| && w.ledger == LedgerAfter(history, identity) && MeetsMinimum(w.log[q].payload)
    ensures var r := w.log[q];
            var reply := CrmResult(Some(identity(r.key)), Some(r.user), false, CreatedAction);
            CrmWorld.Apply(cfg, w, CrmWorld.RemoteStep(q, reply)).ledger
            == LedgerAfter(history + [Submission(r.key, r.payload, r.user)], identity)
  {
    var last := Submission(w.log[q].key, w.log[q].payload, w.log[q].user);
    assert (history + [last])[..|history|] == history;
  }

  /** What a search for a company name finds. */
  datatype SearchHit = SearchHit(crmLead: string, owner: string)

  class MockCrmAdapter {
    const identity: Key -> string
    var calls: nat
    var payloads: seq<Payload>
    var idempotencyKeys: seq<Key>
    var crmUserIds: seq<string>
    var submitCalls: nat
    var submitPayloads: seq<Payload>
    var submitResults: map<Key, CrmResult>
    var searchResults: map<string, SearchHit>
    ghost var history: seq<Submission>

    constructor (identity: Key -> string)
      ensures Valid() && history == [] && this.identity == identity
    {
      this.identity := identity;
      calls, payloads, idempotencyKeys, crmUserIds := 0, [], [], [];
      submitCalls, submitPayloads, submitResults, searchResults, history := 0, [], map[], map[], [];
    }

    ghost predicate Valid()
      reads this
    {
      && submitCalls == |submitPayloads| == |history|
      && (forall i :: 0 <= i < |history| ==> submitPayloads[i] == history[i].payload)
      && submitResults == LedgerAfter(history, identity)
      && idempotencyKeys == CreatedKeys(history, identity)
      && calls == |payloads| == |idempotencyKeys| == |crmUserIds|
    }

    /** app/crm/mock.py:34-56 */
    method SubmitLead(payload: Payload, key: Key, crmUser: string) returns (r: SubmitResult)
      requires Valid()
      modifies this
      ensures Valid() && history == old(history) + [Submission(key, payload, crmUser)]
      ensures r == if key in submitResults then Accepted(submitResults[key]) else Rejected
      ensures key in old(submitResults) ==> calls == old(calls) && submitResults == old(submitResults)
      ensures key !in old(submitResults) ==> (r.Accepted? <==> MeetsMinimum(payload))
    {
      assert (history + [Submission(key, payload, crmUser)])[..|history|] == history;
      history := history + [Submission(key, payload, crmUser)];
      submitCalls := submitCalls + 1;
      submitPayloads := submitPayloads + [payload];
      if key in submitResults {
        return Accepted(submitResults[key]);
      }
      r := CreateLead(payload, key, crmUser);
      if r.Accepted? {
        submitResults := submitResults[key := r.result];
      }
    }

    /** app/crm/mock.py:68-102 */
    method CreateLead(payload: Payload, key: Key, crmUser: string) returns (r: SubmitResult)
      modifies this`calls, this`payloads, this`idempotencyKeys, this`crmUserIds, this`searchResults
      ensures r == if MeetsMinimum(payload)
                   then Accepted(CrmResult(Some(identity(key)), Some(crmUser), false, CreatedAction)) else Rejected
      ensures
        if r.Accepted?
        then calls == old(calls) + 1 && payloads == old(payloads) + [payload]
             && idempotencyKeys == old(idempotencyKeys) + [key] && crmUserIds == old(crmUserIds) + [crmUser]
        else calls == old(calls) && payloads == old(payloads)
             && idempotencyKeys == old(idempotencyKeys) && crmUserIds == old(crmUserIds)
      ensures searchResults ==
              if r.Accepted? then old(searchResults)[payload.name := SearchHit(identity(key), crmUser)]
              else old(searchResults)
    {
      if !MeetsMinimum(payload) {
        return Rejected;
      }
      calls := calls + 1;
      payloads := payloads + [payload];
      idempotencyKeys := idempotencyKeys + [key];
      crmUserIds := crmUserIds + [crmUser];
      r := Accepted(CrmResult(Some(identity(key)), Some(crmUser), false, CreatedAction));
      searchResults := searchResults[payload.name := SearchHit(identity(key), crmUser)];
    }
  }

  function Blanked(payload: Payload, field: string): Payload {
    payload.(fields := payload.fields[field := ""])
  }

  /**
    Each of the eight facts is needed, and the business line alone may come under either of its two names: blanking
    any other fact of an acceptable payload makes it unacceptable.
  */
  lemma EveryFactIsNeeded(payload: Payload, field: string)
    requires MeetsMinimum(payload)
    requires field in {"source", "contactName", "contactTitle", "communicationWay", "mobile", "remark"}
    ensures !MeetsMinimum(Blanked(payload, field)) && !MeetsMinimum(payload.(name := ""))
    ensures !MeetsMinimum(Blanked(Blanked(payload, "businessLine"), "product_line_data_permission"))
    ensures FieldOf(payload, "product_line_data_permission") != "" ==> MeetsMinimum(Blanked(payload, "businessLine"))
  {
    assert FieldOf(Blanked(payload, field), field) == "";
    if FieldOf(payload, "product_line_data_permission") != "" {
      var p := Blanked(payload, "businessLine");
      assert "businessLine"[0] == 'b' && "product_line_data_permission"[0] == 'p';
      forall f | f in REQUIRED_FIELDS
        ensures FieldOf(p, f) != ""
      {
        assert FieldOf(payload, f) != "" && f[0] != 'b';
      }
    }
  }
}
