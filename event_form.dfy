/** The event form page, used both to create an event (optionally many at once
    from an uploaded file) and to edit one loaded by id. Its state is the
    single-event draft, the parsed upload rows and whether the upload preview
    is showing; submitting chooses one of three mutations. */
module EventFormPage {
  import opened Text
  import opened Remote
  import opened CsvImport

  /** An event as the edit page loads it: the optional columns may be null. */
  datatype LoadedEvent = LoadedEvent(
    name: string, contact: Option<string>, venue: Option<string>,
    description: Option<string>, eventDate: Option<string>)

  function Min(a: int, b: int): int {
    if a <= b then a else b
  }

  /** The date shown after loading an event: the part before the first `T` of
      a timestamp, otherwise the first ten characters, and "" for a missing or
      empty date. Never holds a `T`, always a prefix of what was loaded. */
  function PrefillDate(raw: Option<string>): (d: string)
    ensures 'T' !in d
    ensures raw.None? ==> d == ""
    ensures raw.Some? ==> d <= raw.value
    ensures raw.Some? && 'T' in raw.value ==> d + "T" <= raw.value
    ensures raw.Some? && 'T' !in raw.value ==> |d| == Min(10, |raw.value|)
  {
    if raw.None? || raw.value == "" then ""
    else if 'T' in raw.value then
      SplitFirstPiece(raw.value, 'T');
      Split(raw.value, 'T')[0]
    else
      raw.value[..Min(10, |raw.value|)]
  }

  /** The date restored by Cancel in edit mode: the part before the first `T`,
      with no length limit, and "" for a missing date. */
  function CancelDate(raw: Option<string>): (d: string)
    ensures 'T' !in d
    ensures raw.None? ==> d == ""
    ensures raw.Some? ==> d <= raw.value
    ensures raw.Some? && 'T' in raw.value ==> d + "T" <= raw.value
    ensures raw.Some? && 'T' !in raw.value ==> d == raw.value
  {
    if raw.None? then ""
    else
      SplitFirstPiece(raw.value, 'T');
      Split(raw.value, 'T')[0]
  }

  /** The two date rules of the page agree exactly when the loaded date is
      missing, holds a `T`, or is at most ten characters long; a longer date
      without `T` is cut by the first and kept whole by the second. */
  lemma {:induction false} DateRulesAgreeIff(raw: Option<string>)
    ensures PrefillDate(raw) == CancelDate(raw) <==>
      raw.None? || 'T' in raw.value || |raw.value| <= 10
  {
    if raw.Some? && 'T' !in raw.value && |raw.value| > 10 {
      assert |PrefillDate(raw)| == 10;
    }
  }

  /** The draft the page shows after loading an event: the name as loaded, a
      null text column as "", and the date by the load rule. */
  function PrefillDraft(e: LoadedEvent): (d: EventInput)
    ensures d.name == e.name
    ensures e.contact.Some? ==> d.contact == e.contact.value
    ensures e.contact.None? ==> d.contact == ""
    ensures e.venue.Some? ==> d.venue == e.venue.value
    ensures e.venue.None? ==> d.venue == ""
    ensures e.description.Some? ==> d.description == e.description.value
    ensures e.description.None? ==> d.description == ""
    ensures 'T' !in d.eventDate
    ensures e.eventDate.Some? && 'T' !in e.eventDate.value ==> |d.eventDate| <= 10
  {
    EventInput(e.name, OrEmpty(e.contact), OrEmpty(e.venue), OrEmpty(e.description), PrefillDate(e.eventDate))
  }

  /** The draft Cancel restores in edit mode: the same columns, and the date
      by the cancel rule, which keeps a date without `T` whole. */
  function RestoredDraft(e: LoadedEvent): (d: EventInput)
    ensures d.name == e.name
    ensures e.contact.Some? ==> d.contact == e.contact.value
    ensures e.contact.None? ==> d.contact == ""
    ensures e.venue.Some? ==> d.venue == e.venue.value
    ensures e.venue.None? ==> d.venue == ""
    ensures e.description.Some? ==> d.description == e.description.value
    ensures e.description.None? ==> d.description == ""
    ensures 'T' !in d.eventDate
    ensures e.eventDate.Some? && 'T' !in e.eventDate.value ==> d.eventDate == e.eventDate.value
  {
    EventInput(e.name, OrEmpty(e.contact), OrEmpty(e.venue), OrEmpty(e.description), CancelDate(e.eventDate))
  }

  /** Cancel brings back what was first shown exactly when the two date rules
      agree; every other field always comes back as loaded. */
  lemma RestoreMatchesPrefillIff(e: LoadedEvent)
    ensures RestoredDraft(e).name == PrefillDraft(e).name == e.name
    ensures RestoredDraft(e).description == PrefillDraft(e).description
    ensures RestoredDraft(e) == PrefillDraft(e) <==>
      e.eventDate.None? || 'T' in e.eventDate.value || |e.eventDate.value| <= 10
  {
    DateRulesAgreeIff(e.eventDate);
  }

  /** The mutation a submission issues. */
  datatype EventCall =
    | CreateEvent(input: EventInput)
    | UpdateEvent(id: int, input: EventInput)
    | BulkCreateEvents(events: seq<EventInput>)

  /** What a submission does: at most one mutation, exactly one alert, and a
      move to the events list on success. */
  datatype SubmitEffect = SubmitEffect(call: Option<EventCall>, alert: string, navigateTo: Option<string>)

  const SaveFallback := "Error saving event(s)"
  const EventsPath := "/events"

  /** The alert of a successful submission names what was done, so each
      branch has its own message, and none is the failure fallback. */
  function SuccessAlert(call: EventCall): (alert: string)
    ensures alert == "Events imported successfully" <==> call.BulkCreateEvents?
    ensures alert == "Event updated successfully" <==> call.UpdateEvent?
    ensures alert == "Event created successfully" <==> call.CreateEvent?
    ensures alert != SaveFallback
  {
    match call
    case BulkCreateEvents(_) => "Events imported successfully"
    case UpdateEvent(_, _) => "Event updated successfully"
    case CreateEvent(_) => "Event created successfully"
  }

  /** The record the create, update and bulk-create mutations receive, field by field. */
  datatype EventField = Name | Contact | Venue | Description | EventDate

  function Field(d: EventInput, f: EventField): string {
    match f
    case Name => d.name
    case Contact => d.contact
    case Venue => d.venue
    case Description => d.description
    case EventDate => d.eventDate
  }

  /** One input of the draft set to `v`, the four others kept. */
  function WithField(d: EventInput, f: EventField, v: string): (r: EventInput)
    ensures Field(r, f) == v
    ensures forall g :: g != f ==> Field(r, g) == Field(d, g)
  {
    match f
    case Name => d.(name := v)
    case Contact => d.(contact := v)
    case Venue => d.(venue := v)
    case Description => d.(description := v)
    case EventDate => d.(eventDate := v)
  }

  /** The first row index whose check fails is `i` when every earlier row passes. */
  lemma FirstIncompleteRowAt(rows: seq<EventInput>, i: nat)
    requires i < |rows| && !RowComplete(rows[i])
    requires forall j :: 0 <= j < i ==> RowComplete(rows[j])
    ensures FirstIncompleteRow(rows) == Some(i)
  {
  }

  /** The test the page applies to one row: its name or its date trims to the
      empty string. It fails exactly the rows that are not complete. */
  method MissingFields(ev: EventInput) returns (missing: bool)
    ensures missing <==> !RowComplete(ev)
  {
    BlankIffTrimEmpty(ev.name);
    BlankIffTrimEmpty(ev.eventDate);
    missing := Trim(ev.name) == "" || Trim(ev.eventDate) == "";
  }

  /** The validation loop of a bulk submission: rows are tested in order and
      the first one missing a field is reported by its index. */
  method FindIncompleteRow(rows: seq<EventInput>) returns (r: Option<nat>)
    ensures r == FirstIncompleteRow(rows)
  {
    for i := 0 to |rows|
      invariant forall j :: 0 <= j < i ==> RowComplete(rows[j])
    {
      var missing := MissingFields(rows[i]);
      if missing {
        FirstIncompleteRowAt(rows, i);
        return Some(i);
      }
    }
    return None;
  }

  class EventForm {
    /** Whether the route carried an id. */
    const isEdit: bool
    /** The route id as a number; meaningful in edit mode only. */
    const id: int
    /** The loaded event, once the query of the edit page has answered. */
    var loaded: Option<LoadedEvent>
    var formData: EventInput
    var csvEvents: seq<EventInput>
    var csvPreview: bool

    /** Upload exists only in create mode, only the edit page loads an event,
        and rows are never present without the preview. */
    predicate Valid()
      reads this
    {
      && (isEdit ==> csvEvents == [] && !csvPreview)
      && (!isEdit ==> loaded.None?)
      && (csvEvents != [] ==> csvPreview)
    }

    constructor (isEdit: bool, id: int)
      ensures this.isEdit == isEdit && this.id == id
      ensures loaded == None && formData == EmptyEvent && csvEvents == [] && !csvPreview
      ensures Valid()
    {
      this.isEdit := isEdit;
      this.id := id;
      loaded := None;
      formData := EmptyEvent;
      csvEvents := [];
      csvPreview := false;
    }

    /** The prefill effect, run when the query of the edit page answers: a
        found event replaces the whole draft. */
    method ReceiveEvent(found: Option<LoadedEvent>)
      requires Valid() && isEdit
      modifies this
      ensures Valid()
      ensures loaded == found
      ensures found.Some? ==> formData == PrefillDraft(found.value)
      ensures found.None? ==> formData == old(formData)
      ensures csvEvents == old(csvEvents) && csvPreview == old(csvPreview)
    {
      loaded := found;
      if found.Some? {
        formData := PrefillDraft(found.value);
      }
    }

    /** Typing in one input of the draft; the inputs are hidden while the
        upload preview shows. */
    method Edit(f: EventField, v: string)
      requires Valid() && !csvPreview
      modifies this
      ensures Valid()
      ensures formData == WithField(old(formData), f, v)
      ensures loaded == old(loaded) && csvEvents == old(csvEvents) && csvPreview == old(csvPreview)
    {
      formData := WithField(formData, f, v);
    }

    /** Choosing a file (create mode only): no file changes nothing; a file
        replaces the rows by its parse and shows the preview, even when the
        parse is empty. The draft is kept. */
    method UploadCsv(file: Option<string>)
      requires Valid() && !isEdit
      modifies this
      ensures Valid()
      ensures file.None? ==> csvEvents == old(csvEvents) && csvPreview == old(csvPreview)
      ensures file.Some? ==> csvEvents == ParseCsv(file.value) && csvPreview
      ensures formData == old(formData) && loaded == old(loaded)
    {
      if file.Some? {
        ShowPreview(ParseCsv(file.value));
      }
    }

    /** The rows of an upload replace the old ones and the preview turns on. */
    method ShowPreview(rows: seq<EventInput>)
      requires Valid() && !isEdit
      modifies this
      ensures Valid() && csvEvents == rows && csvPreview
      ensures formData == old(formData) && loaded == old(loaded)
    {
      csvEvents, csvPreview := rows, true;
    }

    /** Submitting the form. With rows present they are checked in order and
        the first incomplete one, by its 1-based number, stops everything;
        otherwise the rows go out unchanged in one bulk call. Without rows, the
        draft is sent as an update in edit mode and as a create otherwise. Every
        failing mutation reports the first server message, else the fallback,
        and stays on the page. The page state is not changed. */
    method Submit(outcome: Response<()>) returns (eff: SubmitEffect)
      ensures FirstIncompleteRow(csvEvents).Some? ==>
        eff == SubmitEffect(None, MissingFieldsAlert(FirstIncompleteRow(csvEvents).value + 1), None)
      ensures eff.call.Some? <==> FirstIncompleteRow(csvEvents).None?
      ensures csvEvents != [] && eff.call.Some? ==> eff.call.value == BulkCreateEvents(csvEvents)
      ensures csvEvents == [] && isEdit ==> eff.call == Some(UpdateEvent(id, formData))
      ensures csvEvents == [] && !isEdit ==> eff.call == Some(CreateEvent(formData))
      ensures eff.call.Some? && outcome.Ok? ==>
        eff.alert == SuccessAlert(eff.call.value) && eff.navigateTo == Some(EventsPath)
      ensures eff.call.Some? && outcome.Err? ==>
        eff.alert == ErrorAlert(outcome.messages, SaveFallback) && eff.navigateTo == None
    {
      var call: EventCall;
      if |csvEvents| > 0 {
        var bad := FindIncompleteRow(csvEvents);
        if bad.Some? {
          return SubmitEffect(None, MissingFieldsAlert(bad.value + 1), None);
        }
        call := BulkCreateEvents(csvEvents);
      } else if isEdit {
        call := UpdateEvent(id, formData);
      } else {
        call := CreateEvent(formData);
      }
      match outcome
      case Ok(_) =>
        eff := SubmitEffect(Some(call), SuccessAlert(call), Some(EventsPath));
      case Err(messages) =>
        eff := SubmitEffect(Some(call), ErrorAlert(messages, SaveFallback), None);
    }

    /** Cancel. With the preview showing or rows present (create page only) it
        leaves upload mode and empties the draft, discarding anything typed
        before the upload; otherwise it restores the loaded event in edit mode
        and empties the draft in every other case. Either way the page ends
        outside upload mode. */
    method Cancel()
      requires Valid()
      modifies this
      ensures Valid()
      ensures old(csvPreview) || old(csvEvents) != [] ==> formData == EmptyEvent
      ensures !(old(csvPreview) || old(csvEvents) != []) ==>
        formData == (if isEdit && loaded.Some? then RestoredDraft(loaded.value) else EmptyEvent)
      ensures csvEvents == [] && !csvPreview && loaded == old(loaded)
    {
      if csvPreview || |csvEvents| > 0 {
        csvEvents := [];
        csvPreview := false;
        formData := EmptyEvent;
        return;
      }
      if isEdit && loaded.Some? {
        formData := RestoredDraft(loaded.value);
      } else {
        formData := EmptyEvent;
      }
    }
  }

  /** A file holding a header line and nothing else yields no rows. */
  lemma {:induction false} HeaderOnlyUploadHasNoRows(header: string)
    requires '\n' !in header
    ensures ParseCsv(header + "\n") == []
  {
    HeaderLineJoin(header);
    LinesOfJoin([header, ""]);
    HeaderLineFiltered(header);
  }

  lemma HeaderLineJoin(header: string)
    ensures Join([header, ""], '\n') == header + "\n"
  {
    assert [header, ""][1..] == [""];
  }

  /** A header followed by an empty line keeps one line at most. */
  lemma {:induction false} HeaderLineFiltered(header: string)
    ensures |DropEmpty(TrimAll([header, ""]))| <= 1
  {
    var t := TrimAll([header, ""]);
    assert t[1] == "" by {
      BlankIffTrimEmpty("");
    }
    assert t == [t[0]] + [""] + [];
    DropEmptyAroundEmpty([t[0]], []);
  }

  /** Uploading a header-only file on the create page shows an empty preview,
      and submitting then takes the single-event branch with the empty draft
      rather than the bulk branch. */
  method HeaderOnlyUploadSubmitsDraft(header: string, outcome: Response<()>)
    returns (preview: bool, rows: seq<EventInput>, eff: SubmitEffect)
    requires '\n' !in header
    ensures preview && rows == []
    ensures eff.call == Some(CreateEvent(EmptyEvent))
  {
    var form := new EventForm(false, 0);
    form.UploadCsv(Some(header + "\n"));
    HeaderOnlyUploadHasNoRows(header);
    preview, rows := form.csvPreview, form.csvEvents;
    eff := form.Submit(outcome);
  }
}
