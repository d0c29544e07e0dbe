/** The vacancy handlers: the id guards, the validate-then-insert of a create,
    the partial-update merge sent through the compare-and-swap update, and the
    notification fan-out a create schedules. */
module VacancyHandlers {
  import opened Base
  import opened Validator
  import opened Vacancies
  import opened Subscribers

  /** The response a handler writes. */
  datatype Response =
    | NotFound
    | ServerError(error: Error)
    | FailedValidation(failures: seq<Violation>)
    | EditConflictResponse
    | Created(vacancy: Vacancy)
    | VacancyOk(vacancy: Vacancy)
    | Deleted

  /** The `:id` path parameter is refused when it does not parse or is below 1. */
  predicate BadId(idParam: Option<int>) {
    idParam.None? || idParam.value < 1
  }

  /** The body of a create request. */
  datatype CreateInput = CreateInput(title: Text, company: Text, tags: Slice<Text>)

  /** The body of a partial update: a field left out of the request is `None`
      (for `tags`, a nil slice). */
  datatype UpdateInput = UpdateInput(title: Option<Text>, company: Option<Text>,
                                     tags: Slice<Text>, active: Option<bool>)

  /** Merging a partial update into the fetched record: each field the request
      carries overwrites the fetched one, the others are kept, and `id`,
      `createdAt` and `version` are never touched. */
  function Merge(fetched: Vacancy, input: UpdateInput): (merged: Vacancy)
    ensures merged.id == fetched.id && merged.createdAt == fetched.createdAt
    ensures merged.version == fetched.version
    ensures input.title.None? ==> merged.title == fetched.title
    ensures input.title.Some? ==> merged.title == input.title.value
    ensures input.company.None? ==> merged.company == fetched.company
    ensures input.company.Some? ==> merged.company == input.company.value
    ensures input.tags.Nil? ==> merged.tags == fetched.tags
    ensures input.tags.Slice? ==> merged.tags == input.tags
    ensures input.active.None? ==> merged.active == fetched.active
    ensures input.active.Some? ==> merged.active == input.active.value
  {
    var v1 := if input.title.Some? then fetched.(title := input.title.value) else fetched;
    var v2 := if input.company.Some? then v1.(company := input.company.value) else v1;
    var v3 := if input.tags.Slice? then v2.(tags := input.tags) else v2;
    if input.active.Some? then v3.(active := input.active.value) else v3
  }

  /** Sending the same partial update again changes nothing more. */
  lemma MergeIdempotent(fetched: Vacancy, input: UpdateInput)
    ensures Merge(Merge(fetched, input), input) == Merge(fetched, input)
  {
  }

  // ---------------------------------------------------------------------------
  // Notification fan-out

  const NewVacancyTemplate := "new_vacancy.tmpl"

  /** The template data every notification of one vacancy carries. */
  datatype Payload = Payload(title: Text, company: Text, tags: Slice<Text>)

  /** One call of the mail transport's `Send(recipient, template, data)`. */
  datatype Attempt = Attempt(recipient: Text, template: string, data: Payload)

  /** What the fan-out logs: a failed lookup (through the server-error path) or a
      failed send, numbered by its attempt. */
  datatype LogEntry =
    | LookupFailed(tag: Text, error: Error)
    | SendFailed(attempt: nat, recipient: Text)

  function PayloadOf(v: Vacancy): Payload {
    Payload(v.title, v.company, v.tags)
  }

  /** The outcome of `GetAllByTag(tag)` over the rows with ids below `n`, when the
      store answers with `fault`. */
  function LookupOf(rows: map<int, SubscriberRow>, users: Users, matches: TagMatch, tag: Text,
                    fault: Option<StoreFault>, n: int): Result<seq<Subscriber>>
  {
    if fault.Some? then Err(Store(fault.value)) else Ok(ByTag(rows, users, matches, tag, n))
  }

  /** The outcome of the lookup for each tag, in tag order, when the store fails
      the lookup of tag number `i` exactly when `lookupFault(i)` says so. */
  function Lookups(rows: map<int, SubscriberRow>, users: Users, matches: TagMatch, tags: seq<Text>,
                   lookupFault: nat -> Option<StoreFault>, n: int): seq<Result<seq<Subscriber>>>
  {
    seq(|tags|, i requires 0 <= i < |tags| => LookupOf(rows, users, matches, tags[i], lookupFault(i), n))
  }

  /** What a lookup hands to the inner loop: a failed one leaves a nil slice. */
  function Found(lookup: Result<seq<Subscriber>>): seq<Subscriber> {
    if lookup.Ok? then lookup.value else []
  }

  /** The subscribers the fan-out sends to, in order: for each tag in turn,
      those its lookup found. */
  function Recipients(lookups: seq<Result<seq<Subscriber>>>): seq<Subscriber>
    decreases |lookups|
  {
    if lookups == [] then []
    else Recipients(lookups[..|lookups| - 1]) + Found(lookups[|lookups| - 1])
  }

  /** The log entries of the sends to `found`, whose first attempt is number `base`. */
  function SendLog(found: seq<Subscriber>, base: nat, sendFails: nat -> bool): seq<LogEntry>
    decreases |found|
  {
    if found == [] then []
    else
      var j := |found| - 1;
      SendLog(found[..j], base, sendFails)
      + (if sendFails(base + j) then [SendFailed(base + j, found[j].email)] else [])
  }

  /** The log entries of one tag's turn, whose first send is attempt number `base`:
      the failed lookup, or the failed sends. */
  function TagLog(tag: Text, lookup: Result<seq<Subscriber>>, base: nat, sendFails: nat -> bool): seq<LogEntry> {
    match lookup
    case Err(e) => [LookupFailed(tag, e)]
    case Ok(found) => SendLog(found, base, sendFails)
  }

  /** The log entries of the whole fan-out, tag by tag. */
  function FanOutLog(tags: seq<Text>, lookups: seq<Result<seq<Subscriber>>>, sendFails: nat -> bool): seq<LogEntry>
    requires |tags| == |lookups|
    decreases |lookups|
  {
    if lookups == [] then []
    else
      var i := |lookups| - 1;
      FanOutLog(tags[..i], lookups[..i], sendFails)
      + TagLog(tags[i], lookups[i], |Recipients(lookups[..i])|, sendFails)
  }

  /** One send per subscriber in `found`, in order, all with the same template
      and data. */
  function Deliveries(found: seq<Subscriber>, data: Payload): (attempts: seq<Attempt>)
  {
    seq(|found|, k requires 0 <= k < |found| => Attempt(found[k].email, NewVacancyTemplate, data))
  }

  lemma DeliveriesConcat(a: seq<Subscriber>, b: seq<Subscriber>, data: Payload)
    ensures Deliveries(a + b, data) == Deliveries(a, data) + Deliveries(b, data)
  {
    assert |Deliveries(a + b, data)| == |Deliveries(a, data) + Deliveries(b, data)|;
    forall k | 0 <= k < |a| + |b|
      ensures Deliveries(a + b, data)[k] == (Deliveries(a, data) + Deliveries(b, data))[k]
    {
      if k < |a| { assert (a + b)[k] == a[k]; } else { assert (a + b)[k] == b[k - |a|]; }
    }
  }

  /** `attempts` and `log` are what the fan-out of `v` produces against the
      subscriber table `rows` (ids below `n`), the failing lookups `lookupFault`
      and the transport's failures `sendFails`. */
  ghost predicate IsFanOut(rows: map<int, SubscriberRow>, users: Users, matches: TagMatch, v: Vacancy,
                           lookupFault: nat -> Option<StoreFault>, sendFails: nat -> bool, n: int,
                           attempts: seq<Attempt>, log: seq<LogEntry>)
  {
    var lookups := Lookups(rows, users, matches, v.tags.Elems(), lookupFault, n);
    && attempts == Deliveries(Recipients(lookups), PayloadOf(v))
    && log == FanOutLog(v.tags.Elems(), lookups, sendFails)
  }

  /** What one more send adds to the sends and to the log. */
  lemma SendStep(found: seq<Subscriber>, j: nat, base: nat, sendFails: nat -> bool, data: Payload)
    requires j < |found|
    ensures Deliveries(found[..j + 1], data) == Deliveries(found[..j], data) + [Attempt(found[j].email, NewVacancyTemplate, data)]
    ensures SendLog(found[..j + 1], base, sendFails)
            == SendLog(found[..j], base, sendFails)
               + (if sendFails(base + j) then [SendFailed(base + j, found[j].email)] else [])
  {
    assert found[..j + 1] == found[..j] + [found[j]];
    DeliveriesConcat(found[..j], [found[j]], data);
    assert found[..j + 1][..j] == found[..j];
  }

  /** The inner loop of the fan-out: one `Send` per subscriber found, numbered on
      from the attempts already made; a failed send is logged and the loop goes on. */
  method SendToEach(found: seq<Subscriber>, data: Payload, sendFails: nat -> bool,
                    attempts0: seq<Attempt>, log0: seq<LogEntry>)
    returns (attempts: seq<Attempt>, log: seq<LogEntry>)
    ensures attempts == attempts0 + Deliveries(found, data)
    ensures log == log0 + SendLog(found, |attempts0|, sendFails)
  {
    attempts, log := attempts0, log0;
    var j := 0;
    while j < |found|
      invariant 0 <= j <= |found|
      invariant |attempts| == |attempts0| + j
      invariant attempts == attempts0 + Deliveries(found[..j], data)
      invariant log == log0 + SendLog(found[..j], |attempts0|, sendFails)
    {
      SendStep(found, j, |attempts0|, sendFails, data);
      // app.mailer.Send(subscriber.Email, "new_vacancy.tmpl", data): the transport's answer
      var failed := sendFails(|attempts|);
      if failed {
        log := log + [SendFailed(|attempts|, found[j].email)];
      }
      attempts := attempts + [Attempt(found[j].email, NewVacancyTemplate, data)];
      j := j + 1;
    }
    assert found[..|found|] == found;
  }

  /** What the lookup for one more tag adds to the recipients and to the log. */
  lemma TagStep(tags: seq<Text>, lookups: seq<Result<seq<Subscriber>>>, i: nat, sendFails: nat -> bool)
    requires |tags| == |lookups| && i < |lookups|
    ensures Recipients(lookups[..i + 1]) == Recipients(lookups[..i]) + Found(lookups[i])
    ensures FanOutLog(tags[..i + 1], lookups[..i + 1], sendFails)
            == FanOutLog(tags[..i], lookups[..i], sendFails)
               + TagLog(tags[i], lookups[i], |Recipients(lookups[..i])|, sendFails)
  {
    assert lookups[..i + 1][..i] == lookups[..i];
    assert tags[..i + 1][..i] == tags[..i];
  }

  /** One tag's turn of the fan-out: look up the subscribers matching `tag`, then
      send to each one found. A failed lookup is logged and sends nothing. */
  method NotifyTag(subscribers: SubscriberModel, users: Users, matches: TagMatch, tag: Text,
                   fault: Option<StoreFault>, data: Payload, sendFails: nat -> bool,
                   attempts0: seq<Attempt>, log0: seq<LogEntry>)
    returns (attempts: seq<Attempt>, log: seq<LogEntry>)
    requires subscribers.Valid()
    ensures var lookup := LookupOf(subscribers.rows, users, matches, tag, fault, subscribers.nextId);
            && attempts == attempts0 + Deliveries(Found(lookup), data)
            && log == log0 + TagLog(tag, lookup, |attempts0|, sendFails)
  {
    var lookup := subscribers.GetAllByTag(tag, users, matches, fault);
    var found: seq<Subscriber> := [];
    log := log0;
    if lookup.Err? {
      // app.serverErrorResponse(w, r, err): logged; the loop below runs over a nil slice
      log := log + [LookupFailed(tag, lookup.error)];
    } else {
      found := lookup.value;
    }
    attempts, log := SendToEach(found, data, sendFails, attempts0, log);
  }

  /** The body of the background job a create schedules: for each tag, look up
      the matching subscribers, then make one send per subscriber found. A
      failed lookup is logged and sends nothing for its tag; a failed send is
      logged; neither stops the loop. */
  method NotifySubscribers(subscribers: SubscriberModel, users: Users, matches: TagMatch, v: Vacancy,
                           lookupFault: nat -> Option<StoreFault>, sendFails: nat -> bool)
    returns (attempts: seq<Attempt>, log: seq<LogEntry>)
    requires subscribers.Valid()
    ensures IsFanOut(subscribers.rows, users, matches, v, lookupFault, sendFails, subscribers.nextId, attempts, log)
  {
    var data := PayloadOf(v);
    var tags := v.tags.Elems();
    ghost var lookups := Lookups(subscribers.rows, users, matches, tags, lookupFault, subscribers.nextId);
    attempts, log := [], [];
    var i := 0;
    while i < |tags|
      invariant 0 <= i <= |tags|
      invariant attempts == Deliveries(Recipients(lookups[..i]), data)
      invariant log == FanOutLog(tags[..i], lookups[..i], sendFails)
    {
      ghost var before := Recipients(lookups[..i]);
      attempts, log := NotifyTag(subscribers, users, matches, tags[i], lookupFault(i), data, sendFails,
                                 attempts, log);
      assert lookups[i] == LookupOf(subscribers.rows, users, matches, tags[i], lookupFault(i), subscribers.nextId);
      TagStep(tags, lookups, i, sendFails);
      DeliveriesConcat(before, Found(lookups[i]), data);
      i := i + 1;
    }
    assert lookups[..|tags|] == lookups;
    assert tags[..|tags|] == tags;
  }

  // ---------------------------------------------------------------------------
  // Properties of the fan-out

  lemma {:induction false} RecipientsConcat(a: seq<Result<seq<Subscriber>>>, b: seq<Result<seq<Subscriber>>>)
    ensures Recipients(a + b) == Recipients(a) + Recipients(b)
    decreases |b|
  {
    if b == [] {
      assert a + b == a;
    } else {
      var n := |b| - 1;
      var ab := a + b;
      assert ab[..|ab| - 1] == a + b[..n];
      assert ab[|ab| - 1] == b[n];
      assert Recipients(ab) == Recipients(a + b[..n]) + Found(b[n]);
      RecipientsConcat(a, b[..n]);
      assert Recipients(b) == Recipients(b[..n]) + Found(b[n]);
    }
  }

  /** The sends split around tag number `i`: those before it, its own, those after it. */
  lemma RecipientsAround(lookups: seq<Result<seq<Subscriber>>>, i: nat)
    requires i < |lookups|
    ensures Recipients(lookups) == Recipients(lookups[..i]) + Found(lookups[i]) + Recipients(lookups[i + 1..])
  {
    var front := lookups[..i + 1];
    assert lookups == front + lookups[i + 1..];
    RecipientsConcat(front, lookups[i + 1..]);
    assert front[..i] == lookups[..i];
  }

  /** A failed lookup sends nothing for its tag and the sends for every other tag
      happen as they would have, exactly as if that tag had matched nobody:
      the sends are those before it followed by those after it. */
  lemma FailedLookupSendsNothing(lookups: seq<Result<seq<Subscriber>>>, i: nat)
    requires i < |lookups| && lookups[i].Err?
    ensures Recipients(lookups) == Recipients(lookups[..i]) + Recipients(lookups[i + 1..])
    ensures Recipients(lookups) == Recipients(lookups[i := Ok([])])
  {
    RecipientsAround(lookups, i);
    var cleared := lookups[i := Ok([])];
    RecipientsAround(cleared, i);
    UpdateKeepsOthers(lookups, i, Ok([]));
    assert Found(lookups[i]) == [] && Found(cleared[i]) == [];
  }

  /** Replacing one element leaves the slices before and after it alone. */
  lemma UpdateKeepsOthers<T>(s: seq<T>, i: nat, x: T)
    requires i < |s|
    ensures s[i := x][..i] == s[..i] && s[i := x][i + 1..] == s[i + 1..] && s[i := x][i] == x
  {
  }

  /** A list without repeated ids holds each record at most once. */
  lemma {:induction false} IncreasingOccursOnce(s: seq<Subscriber>, x: Subscriber)
    requires Increasing(s)
    ensures multiset(s)[x] == if x in s then 1 else 0
    decreases |s|
  {
    if s != [] {
      var n := |s| - 1;
      assert s == s[..n] + [s[n]];
      IncreasingOccursOnce(s[..n], x);
      if s[n] == x {
        assert x !in s[..n] by {
          forall k | 0 <= k < n ensures s[..n][k] != x { assert s[k].id < s[n].id; }
        }
      }
    }
  }

  /** The number of tags, among the first `|tags|`, whose lookup succeeds and
      finds subscriber `s`. */
  function SubscribedTags(rows: map<int, SubscriberRow>, users: Users, matches: TagMatch, tags: seq<Text>,
                          lookupFault: nat -> Option<StoreFault>, n: int, s: Subscriber): nat
    decreases |tags|
  {
    if tags == [] then 0
    else
      var i := |tags| - 1;
      SubscribedTags(rows, users, matches, tags[..i], lookupFault, n, s)
      + (if lookupFault(i).None? && 1 <= s.id < n && TagHit(rows, users, matches, tags[i], s.id)
            && s == JoinedRecord(s.id, rows[s.id], users)
         then 1 else 0)
  }

  /** A subscriber is sent to once for every tag whose lookup succeeds and matches
      its subscription, and never otherwise: no tag sends to it twice. */
  lemma {:induction false} SendsPerSubscriber(rows: map<int, SubscriberRow>, users: Users, matches: TagMatch,
                                              tags: seq<Text>, lookupFault: nat -> Option<StoreFault>,
                                              n: int, s: Subscriber)
    ensures multiset(Recipients(Lookups(rows, users, matches, tags, lookupFault, n)))[s]
            == SubscribedTags(rows, users, matches, tags, lookupFault, n, s)
    decreases |tags|
  {
    var lookups := Lookups(rows, users, matches, tags, lookupFault, n);
    if tags != [] {
      var i := |tags| - 1;
      var shorter := Lookups(rows, users, matches, tags[..i], lookupFault, n);
      assert lookups[..i] == shorter;
      SendsPerSubscriber(rows, users, matches, tags[..i], lookupFault, n, s);
      var last := Found(lookups[i]);
      assert Recipients(lookups) == Recipients(shorter) + last;
      if lookupFault(i).None? {
        ByTagIncreasing(rows, users, matches, tags[i], n);
        IncreasingOccursOnce(last, s);
        ByTagMember(rows, users, matches, tags[i], n, s);
      }
    }
  }

  /** The transport's failures decide only what is logged: the sends are the same
      whichever sends fail. */
  lemma SendFailuresDoNotChangeSends(rows: map<int, SubscriberRow>, users: Users, matches: TagMatch, v: Vacancy,
                                     lookupFault: nat -> Option<StoreFault>, n: int,
                                     fails1: nat -> bool, attempts1: seq<Attempt>, log1: seq<LogEntry>,
                                     fails2: nat -> bool, attempts2: seq<Attempt>, log2: seq<LogEntry>)
    requires IsFanOut(rows, users, matches, v, lookupFault, fails1, n, attempts1, log1)
    requires IsFanOut(rows, users, matches, v, lookupFault, fails2, n, attempts2, log2)
    ensures attempts1 == attempts2
  {
  }

  lemma {:induction false} QuietSendLog(found: seq<Subscriber>, base: nat, sendFails: nat -> bool)
    requires forall k :: base <= k < base + |found| ==> !sendFails(k)
    ensures SendLog(found, base, sendFails) == []
    decreases |found|
  {
    if found != [] {
      QuietSendLog(found[..|found| - 1], base, sendFails);
    }
  }

  /** With every lookup and every send succeeding, the fan-out logs nothing. */
  lemma {:induction false} QuietFanOut(tags: seq<Text>, lookups: seq<Result<seq<Subscriber>>>, sendFails: nat -> bool)
    requires |tags| == |lookups|
    requires forall i :: 0 <= i < |lookups| ==> lookups[i].Ok?
    requires forall k :: !sendFails(k)
    ensures FanOutLog(tags, lookups, sendFails) == []
    decreases |lookups|
  {
    if lookups != [] {
      var i := |lookups| - 1;
      QuietFanOut(tags[..i], lookups[..i], sendFails);
      QuietSendLog(lookups[i].value, |Recipients(lookups[..i])|, sendFails);
    }
  }

  // ---------------------------------------------------------------------------
  // Handlers

  /** `createVacancyHandler`: the store is written only when the record built from
      the request validates; after a successful insert the fan-out runs for the
      stored record (here sequentially, after the response). */
  method CreateVacancyHandler(vacancies: VacancyModel, subscribers: SubscriberModel, users: Users,
                              matches: TagMatch, input: CreateInput, now: int,
                              insertFault: Option<StoreFault>,
                              lookupFault: nat -> Option<StoreFault>, sendFails: nat -> bool)
    returns (resp: Response, attempts: seq<Attempt>, log: seq<LogEntry>)
    requires vacancies.Valid() && subscribers.Valid()
    modifies vacancies
    ensures vacancies.Valid()
    ensures var draft := Draft(input.title, input.company, input.tags);
            ValidateVacancy(draft) != [] ==>
              && resp == FailedValidation(ValidateVacancy(draft))
              && vacancies.rows == old(vacancies.rows) && vacancies.nextId == old(vacancies.nextId)
              && attempts == [] && log == []
    ensures var draft := Draft(input.title, input.company, input.tags);
            ValidateVacancy(draft) == [] && insertFault.Some? ==>
              && resp == ServerError(Store(insertFault.value))
              && vacancies.rows == old(vacancies.rows) && vacancies.nextId == old(vacancies.nextId)
              && attempts == [] && log == []
    ensures var draft := Draft(input.title, input.company, input.tags);
            ValidateVacancy(draft) == [] && insertFault.None? ==>
              var created := draft.(id := old(vacancies.nextId), createdAt := now, version := 1);
              && resp == Created(created)
              && vacancies.rows == old(vacancies.rows)[created.id := VacancyRow(now, input.title, input.company,
                                                                               false, input.tags, 1)]
              && vacancies.nextId == old(vacancies.nextId) + 1
              && IsFanOut(subscribers.rows, users, matches, created, lookupFault, sendFails,
                          subscribers.nextId, attempts, log)
  {
    var vacancy := Draft(input.title, input.company, input.tags);
    var failures := ValidateVacancy(vacancy);
    if failures != [] {
      return FailedValidation(failures), [], [];
    }
    var err;
    vacancy, err := vacancies.Insert(vacancy, now, insertFault);
    if err.Some? {
      return ServerError(err.value), [], [];
    }
    resp := Created(vacancy);
    attempts, log := NotifySubscribers(subscribers, users, matches, vacancy, lookupFault, sendFails);
  }

  /** `showVacancyHandler`: a bad id is refused without consulting the table. */
  method ShowVacancyHandler(vacancies: VacancyModel, idParam: Option<int>, fault: Option<StoreFault>)
    returns (resp: Response)
    ensures BadId(idParam) ==> resp == NotFound
    ensures !BadId(idParam) && fault.Some? ==> resp == ServerError(Store(fault.value))
    ensures !BadId(idParam) && fault.None? && idParam.value !in vacancies.rows ==> resp == NotFound
    ensures !BadId(idParam) && fault.None? && idParam.value in vacancies.rows ==>
              resp == VacancyOk(Fetched(idParam.value, vacancies.rows[idParam.value]))
  {
    if idParam.None? || idParam.value < 1 {
      return NotFound;
    }
    var r := vacancies.Get(idParam.value, fault);
    match r {
      case Ok(v) => resp := VacancyOk(v);
      case Err(e) => resp := if e == RecordNotFound then NotFound else ServerError(e);
    }
  }

  /** `deleteVacancyHandler`: a bad id is refused without calling the model;
      a missing row is not found. */
  method DeleteVacancyHandler(vacancies: VacancyModel, idParam: Option<int>, fault: Option<StoreFault>)
    returns (resp: Response)
    requires vacancies.Valid()
    modifies vacancies
    ensures vacancies.Valid() && vacancies.nextId == old(vacancies.nextId)
    ensures BadId(idParam) ==> resp == NotFound && vacancies.rows == old(vacancies.rows)
    ensures !BadId(idParam) && fault.Some? ==>
              resp == ServerError(Store(fault.value)) && vacancies.rows == old(vacancies.rows)
    ensures !BadId(idParam) && fault.None? && idParam.value !in old(vacancies.rows) ==>
              resp == NotFound && vacancies.rows == old(vacancies.rows)
    ensures !BadId(idParam) && fault.None? && idParam.value in old(vacancies.rows) ==>
              resp == Deleted && vacancies.rows == old(vacancies.rows) - {idParam.value}
  {
    if idParam.None? || idParam.value < 1 {
      return NotFound;
    }
    var err := vacancies.Delete(idParam.value, fault);
    if err.Some? {
      resp := if err.value == RecordNotFound then NotFound else ServerError(err.value);
    } else {
      resp := Deleted;
    }
  }

  /** The second half of `updateVacancyHandler`: merge the request into the
      fetched record, validate the result, and only then send it through the
      compare-and-swap update with the version that was fetched. */
  method ApplyUpdate(vacancies: VacancyModel, fetched: Vacancy, input: UpdateInput, fault: Option<StoreFault>)
    returns (resp: Response)
    requires vacancies.Valid()
    modifies vacancies
    ensures vacancies.Valid() && vacancies.nextId == old(vacancies.nextId)
    ensures ValidateVacancy(Merge(fetched, input)) != [] ==>
              resp == FailedValidation(ValidateVacancy(Merge(fetched, input)))
              && vacancies.rows == old(vacancies.rows)
    ensures ValidateVacancy(Merge(fetched, input)) == [] && fault.Some? ==>
              resp == ServerError(Store(fault.value)) && vacancies.rows == old(vacancies.rows)
    ensures ValidateVacancy(Merge(fetched, input)) == [] && fault.None? && !IsCurrent(old(vacancies.rows), fetched) ==>
              resp == EditConflictResponse && vacancies.rows == old(vacancies.rows)
    ensures ValidateVacancy(Merge(fetched, input)) == [] && fault.None? && IsCurrent(old(vacancies.rows), fetched) ==>
              var merged := Merge(fetched, input);
              && resp == VacancyOk(merged.(version := fetched.version + 1))
              && vacancies.rows == old(vacancies.rows)[fetched.id := VacancyRow(
                   old(vacancies.rows)[fetched.id].createdAt, merged.title, merged.company,
                   merged.active, merged.tags, fetched.version + 1)]
  {
    var vacancy := Merge(fetched, input);
    var failures := ValidateVacancy(vacancy);
    if failures != [] {
      return FailedValidation(failures);
    }
    var err;
    vacancy, err := vacancies.Update(vacancy, fault);
    if err.Some? {
      resp := if err.value == EditConflict then EditConflictResponse else ServerError(err.value);
    } else {
      resp := VacancyOk(vacancy);
    }
  }

  /** `updateVacancyHandler` as written: the record it merges into comes from
      `Get`, which does not read `active`. */
  method UpdateVacancyHandler(vacancies: VacancyModel, idParam: Option<int>, input: UpdateInput,
                              getFault: Option<StoreFault>, updateFault: Option<StoreFault>)
    returns (resp: Response)
    requires vacancies.Valid()
    modifies vacancies
    ensures vacancies.Valid() && vacancies.nextId == old(vacancies.nextId)
    ensures BadId(idParam) ==> resp == NotFound && vacancies.rows == old(vacancies.rows)
    ensures !BadId(idParam) && getFault.Some? ==>
              resp == ServerError(Store(getFault.value)) && vacancies.rows == old(vacancies.rows)
    ensures !BadId(idParam) && getFault.None? && idParam.value !in old(vacancies.rows) ==>
              resp == NotFound && vacancies.rows == old(vacancies.rows)
    ensures !BadId(idParam) && getFault.None? && idParam.value in old(vacancies.rows) ==>
              var id := idParam.value;
              var row := old(vacancies.rows)[id];
              var merged := Merge(Fetched(id, row), input);
              && (ValidateVacancy(merged) != [] ==>
                    resp == FailedValidation(ValidateVacancy(merged)) && vacancies.rows == old(vacancies.rows))
              && (ValidateVacancy(merged) == [] && updateFault.Some? ==>
                    resp == ServerError(Store(updateFault.value)) && vacancies.rows == old(vacancies.rows))
              && (ValidateVacancy(merged) == [] && updateFault.None? ==>
                    && resp == VacancyOk(merged.(version := row.version + 1))
                    && vacancies.rows == old(vacancies.rows)[id := VacancyRow(row.createdAt, merged.title,
                         merged.company, merged.active, merged.tags, row.version + 1)]
                    && vacancies.rows[id].active == (input.active.Some? && input.active.value))
  {
    if idParam.None? || idParam.value < 1 {
      return NotFound;
    }
    var got := vacancies.Get(idParam.value, getFault);
    if got.Err? {
      return if got.error == RecordNotFound then NotFound else ServerError(got.error);
    }
    resp := ApplyUpdate(vacancies, got.value, input, updateFault);
  }

  /** A request that changes only the title of an active vacancy stores it as
      inactive: the code as written loses `active` on every partial update that
      leaves it out. */
  method PartialUpdateClearsActive(vacancies: VacancyModel, id: int, title: Text) returns (resp: Response)
    requires vacancies.Valid() && id in vacancies.rows && vacancies.rows[id].active
    requires WellFormed(title, vacancies.rows[id].company, vacancies.rows[id].tags)
    modifies vacancies
    ensures resp.VacancyOk? && id in vacancies.rows
    ensures vacancies.rows[id].title == title && !vacancies.rows[id].active
  {
    var input := UpdateInput(Some(title), None, Nil, None);
    ValidateVacancyAccepts(Merge(Fetched(id, vacancies.rows[id]), input));
    resp := UpdateVacancyHandler(vacancies, Some(id), input, None, None);
  }

  /** `updateVacancyHandler` with the fetch reading `active` as well: every field
      the request leaves out keeps its stored value. */
  method UpdateVacancyHandlerFixed(vacancies: VacancyModel, idParam: Option<int>, input: UpdateInput,
                                   getFault: Option<StoreFault>, updateFault: Option<StoreFault>)
    returns (resp: Response)
    requires vacancies.Valid()
    modifies vacancies
    ensures vacancies.Valid() && vacancies.nextId == old(vacancies.nextId)
    ensures BadId(idParam) ==> resp == NotFound && vacancies.rows == old(vacancies.rows)
    ensures !BadId(idParam) && getFault.Some? ==>
              resp == ServerError(Store(getFault.value)) && vacancies.rows == old(vacancies.rows)
    ensures !BadId(idParam) && getFault.None? && idParam.value !in old(vacancies.rows) ==>
              resp == NotFound && vacancies.rows == old(vacancies.rows)
    ensures !BadId(idParam) && getFault.None? && idParam.value in old(vacancies.rows) ==>
              var id := idParam.value;
              var row := old(vacancies.rows)[id];
              var merged := Merge(FetchedWithActive(id, row), input);
              && (ValidateVacancy(merged) != [] ==>
                    resp == FailedValidation(ValidateVacancy(merged)) && vacancies.rows == old(vacancies.rows))
              && (ValidateVacancy(merged) == [] && updateFault.Some? ==>
                    resp == ServerError(Store(updateFault.value)) && vacancies.rows == old(vacancies.rows))
              && (ValidateVacancy(merged) == [] && updateFault.None? ==>
                    && resp == VacancyOk(merged.(version := row.version + 1))
                    && vacancies.rows.Keys == old(vacancies.rows).Keys
                    && (forall other :: other in vacancies.rows && other != id ==>
                          vacancies.rows[other] == old(vacancies.rows)[other])
                    && var stored := vacancies.rows[id];
                       && stored.createdAt == row.createdAt && stored.version == row.version + 1
                       && stored.title == (if input.title.Some? then input.title.value else row.title)
                       && stored.company == (if input.company.Some? then input.company.value else row.company)
                       && stored.tags == (if input.tags.Slice? then input.tags else row.tags)
                       && stored.active == (if input.active.Some? then input.active.value else row.active))
  {
    if idParam.None? || idParam.value < 1 {
      return NotFound;
    }
    var got := vacancies.GetWithActive(idParam.value, getFault);
    if got.Err? {
      return if got.error == RecordNotFound then NotFound else ServerError(got.error);
    }
    resp := ApplyUpdate(vacancies, got.value, input, updateFault);
  }
}
