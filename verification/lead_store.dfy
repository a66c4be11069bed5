/** The server-side lead store wrapper (`lib/sanity.server.ts`): building the
    lead document, refusing to write without a write token, rewording two
    kinds of store error, and building the status patch. The store client
    itself is abstract: what it answers is a parameter. */
module LeadStore {
  import opened Wrappers
  import opened Text

  /** The argument of `createLead`. The optional fields are `None` when the
      caller leaves them out. */
  datatype LeadData = LeadData(
    name: string,
    email: string,
    phone: string,
    service: string,
    message: string,
    source: Option<string>,
    submittedAt: string,
    ipAddress: Option<string>,
    userAgent: Option<string>)

  /** The document handed to the store; `None` in `ipAddress` and
      `userAgent` is JSON `null`. */
  datatype LeadDocument = LeadDocument(
    docType: string,
    name: string,
    email: string,
    phone: string,
    service: string,
    message: string,
    source: string,
    status: string,
    priority: string,
    submittedAt: string,
    ipAddress: Option<string>,
    userAgent: Option<string>)

  /** What the store's `create` does: returns the document with the `_id` it
      assigned, or throws an error with the given message. */
  datatype StoreReply = Created(id: string) | Failed(message: string)

  /** The document as stored, with its store-assigned `_id`. */
  datatype StoredLead = StoredLead(id: string, doc: LeadDocument)

  /** What `createLead` returns on success. */
  datatype CreatedLead = CreatedLead(success: bool, leadId: string, data: StoredLead)

  /** One call of `createLead`: the document it sent to the store, if it got
      that far, and what it returned or threw. */
  datatype CreateLeadCall = CreateLeadCall(sent: Option<LeadDocument>, outcome: Result<CreatedLead>)

  const LeadType := "lead"
  /** The `website` source: what `createLead` falls back to, and what the
      contact route passes explicitly. */
  const WebsiteSource := "website"
  const NewStatus := "new"
  const DefaultPriority := "medium"

  /** The two markers `createLead` and the route look for in an error
      message. The long messages below are written as concatenations of
      short pieces only so that the verifier can reason about their
      characters; each spells the source's message exactly. */
  const PermissionMarker := "Insufficient permissions"
  const TokenMarker := "SANITY_WRITE_TOKEN"

  /** Thrown by `createLead` itself when there is no write token. */
  const TokenUndefinedError := TokenMarker
    + " is not de" + "fined. Ple" + "ase add it" + " to your e" + "nvironment" + " variables" + "."

  /** The rewording of a permission error. */
  const PermissionRewrap :=
    "Sanity wri" + "te token h" + "as insuffi" + "cient perm" + "issions. P" + "lease chec"
    + "k your tok" + "en permiss" + "ions."

  /** The prefix of the rewording of a missing-token error. */
  const TokenRewrapHead := "Sanity wri" + "te token i" + "s missing." + " Please ad" + "d "

  /** The rewording of a missing-token error. */
  const TokenRewrap := TokenRewrapHead + TokenMarker
    + " to your e" + "nvironment" + " variables" + "."

  /** The lead document: trimmed fields, a trimmed lowercased e-mail, the
      defaults for source, status and priority, and `null` for a missing IP
      address or user agent. */
  function BuildLeadDocument(data: LeadData): (doc: LeadDocument)
    ensures doc.docType == LeadType && doc.status == NewStatus && doc.priority == DefaultPriority
    ensures data.source.Some? && data.source.value != "" ==> doc.source == data.source.value
    ensures data.source.None? || data.source.value == "" ==> doc.source == WebsiteSource
    ensures doc.submittedAt == data.submittedAt
    ensures doc.ipAddress.Some? <==> data.ipAddress.Some? && data.ipAddress.value != ""
    ensures doc.ipAddress.Some? ==> doc.ipAddress.value == data.ipAddress.value
    ensures doc.userAgent.Some? <==> data.userAgent.Some? && data.userAgent.value != ""
    ensures doc.userAgent.Some? ==> doc.userAgent.value == data.userAgent.value
    ensures doc.name == Trim(data.name) && doc.phone == Trim(data.phone)
    ensures doc.service == Trim(data.service) && doc.message == Trim(data.message)
    ensures doc.email == Lower(Trim(data.email))
    ensures IsTrimmed(doc.email)
  {
    var email := Trim(data.email);
    LowerTrimmed(email);
    LeadDocument(
      LeadType,
      Trim(data.name),
      Lower(email),
      Trim(data.phone),
      Trim(data.service),
      Trim(data.message),
      OrElse(data.source, WebsiteSource),
      NewStatus,
      DefaultPriority,
      data.submittedAt,
      OrNull(data.ipAddress),
      OrNull(data.userAgent))
  }

  /** The `catch` of `createLead`: a permission error and a missing-token
      error are reworded, the permission test first; anything else is
      rethrown as it is. */
  function RewrapError(message: string): (r: string)
    ensures Contains(message, PermissionMarker) ==> r == PermissionRewrap
    ensures !Contains(message, PermissionMarker) && Contains(message, TokenMarker) ==> r == TokenRewrap
    ensures !Contains(message, PermissionMarker) && !Contains(message, TokenMarker) ==> r == message
  {
    if Contains(message, PermissionMarker) then PermissionRewrap
    else if Contains(message, TokenMarker) then TokenRewrap
    else message
  }

  // Character facts about the fixed messages, one per lemma so that each
  // stays cheap to check.
  lemma PermissionRewrapLacksCapitalI() ensures 'I' !in PermissionRewrap {}
  lemma PermissionRewrapLacksUnderscore() ensures '_' !in PermissionRewrap {}
  lemma TokenRewrapLacksF() ensures 'f' !in TokenRewrap {}
  lemma TokenUndefinedLacksC() ensures 'c' !in TokenUndefinedError {}

  /** The reworded permission message no longer carries the capitalised
      marker, nor the token marker. */
  lemma PermissionRewrapLosesMarkers()
    ensures !Contains(PermissionRewrap, PermissionMarker)
    ensures !Contains(PermissionRewrap, TokenMarker)
  {
    PermissionRewrapLacksCapitalI();
    assert PermissionMarker[0] == 'I';
    NotContainsMissingChar(PermissionRewrap, PermissionMarker, 'I');
    PermissionRewrapLacksUnderscore();
    assert TokenMarker[6] == '_';
    NotContainsMissingChar(PermissionRewrap, TokenMarker, '_');
  }

  /** The reworded missing-token message still names the token, and does not
      carry the permission marker. */
  lemma TokenRewrapKeepsMarker()
    ensures Contains(TokenRewrap, TokenMarker)
    ensures !Contains(TokenRewrap, PermissionMarker)
  {
    var tail := " to your e" + "nvironment" + " variables" + ".";
    assert TokenRewrap == TokenRewrapHead + TokenMarker + tail;
    assert TokenRewrap[|TokenRewrapHead|..|TokenRewrapHead| + |TokenMarker|] == TokenMarker;
    ContainsAt(TokenRewrap, TokenMarker, |TokenRewrapHead|);
    TokenRewrapLacksF();
    assert PermissionMarker[4] == 'f';
    NotContainsMissingChar(TokenRewrap, PermissionMarker, 'f');
  }

  /** The error thrown for a missing token names the token and carries no
      permission marker, so the `catch` rewords it as a missing token. */
  lemma TokenUndefinedRewrapped()
    ensures RewrapError(TokenUndefinedError) == TokenRewrap
  {
    assert TokenUndefinedError[..|TokenMarker|] == TokenMarker;
    ContainsAt(TokenUndefinedError, TokenMarker, 0);
    TokenUndefinedLacksC();
    assert PermissionMarker[7] == 'c';
    NotContainsMissingChar(TokenUndefinedError, PermissionMarker, 'c');
  }

  /** `createLead(data)` with the token's presence and the store's answer as
      parameters. Without a token nothing is sent to the store and the error
      finally thrown names the token; with one, exactly the built document is
      sent to `create`, whatever the store then answers; success returns the
      store's `_id`, and a store error comes back reworded by `RewrapError`. */
  function CreateLead(data: LeadData, tokenPresent: bool, store: StoreReply): (call: CreateLeadCall)
    ensures !tokenPresent ==> call.sent.None? && call.outcome == Err(TokenRewrap)
    ensures !tokenPresent ==> Contains(call.outcome.message, TokenMarker)
    ensures tokenPresent ==> call.sent == Some(BuildLeadDocument(data))
    ensures call.outcome.Ok? <==> tokenPresent && store.Created?
    ensures call.outcome.Ok? ==> && call.outcome.value.success
                                 && call.outcome.value.leadId == store.id
                                 && call.outcome.value.data == StoredLead(store.id, call.sent.value)
    ensures tokenPresent && store.Failed? ==> call.outcome == Err(RewrapError(store.message))
  {
    TokenUndefinedRewrapped();
    TokenRewrapKeepsMarker();
    var doc := BuildLeadDocument(data);
    var attempt: Result<StoredLead> :=
      if !tokenPresent then Err(TokenUndefinedError)
      else match store
        case Created(id) => Ok(StoredLead(id, doc))
        case Failed(m) => Err(m);
    var sent := if tokenPresent then Some(doc) else None;
    match attempt
    case Ok(lead) => CreateLeadCall(sent, Ok(CreatedLead(true, lead.id, lead)))
    case Err(m) => CreateLeadCall(sent, Err(RewrapError(m)))
  }

  /** The fields `updateLeadStatus` sets, keyed by field name. */
  datatype LeadPatch = LeadPatch(leadId: string, fields: map<string, string>)

  /** What `updateLeadStatus` returns on success. */
  datatype UpdatedLead<D> = UpdatedLead(success: bool, data: D)

  /** The patch `updateLeadStatus` commits: the new status always, the notes
      only when given and non-empty, and nothing else. */
  function LeadStatusPatch(leadId: string, status: string, notes: Option<string>): (p: LeadPatch)
    ensures p.leadId == leadId
    ensures "status" in p.fields && p.fields["status"] == status
    ensures "notes" in p.fields <==> notes.Some? && notes.value != ""
    ensures "notes" in p.fields ==> p.fields["notes"] == notes.value
    ensures p.fields.Keys <= {"status", "notes"}
  {
    var updates := map["status" := status];
    var updates := if notes.Some? && notes.value != "" then updates["notes" := notes.value] else updates;
    LeadPatch(leadId, updates)
  }

  /** `updateLeadStatus` with the commit's answer as a parameter: the patch,
      and either the committed document or the commit's error, rethrown
      unchanged. */
  function UpdateLeadStatus<D>(leadId: string, status: string, notes: Option<string>, commit: Result<D>)
    : (r: (LeadPatch, Result<UpdatedLead<D>>))
    ensures r.0 == LeadStatusPatch(leadId, status, notes)
    ensures r.1.Ok? <==> commit.Ok?
    ensures r.1.Ok? ==> r.1.value == UpdatedLead(true, commit.value)
    ensures r.1.Err? ==> r.1.message == commit.message
  {
    var patch := LeadStatusPatch(leadId, status, notes);
    match commit
    case Ok(d) => (patch, Ok(UpdatedLead(true, d)))
    case Err(m) => (patch, Err(m))
  }
}
