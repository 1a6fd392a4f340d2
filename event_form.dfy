// The create / edit form of the dashboard: its state, initialised from the
// event being edited, the field changes, and the submission that turns the
// state into form data and hands it to creaEvento or modificaEvento.

module EventForm {

  import opened Optional
  import opened Types
  import opened Db
  import opened EventActions

  /** The form's state object, one text per input plus the free / paid choice. */
  datatype FormState = FormState(
    titolo: string, descrizione: string, dataInizio: string, oraInizio: string,
    dataFine: string, oraFine: string, luogo: string, categoria: string,
    associazione: string, isGratuito: bool, costo: string, linkEsterni: string,
    contatti: string, immagineUrl: string)

  /** A nullable text, with the empty text standing for null. */
  function OrEmpty(s: Option<string>): string
  {
    if s.Some? then s.value else ""
  }

  /** The hours and minutes of a time: its first five characters at most. */
  function Hhmm(t: string): (r: string)
    ensures |r| <= 5 && |r| <= |t| && r == t[..|r|]
    ensures |t| > 0 ==> |r| > 0
  {
    if |t| <= 5 then t else t[..5]
  }

  /** A boolean written as text. */
  function BoolText(b: bool): string
  {
    if b then "true" else "false"
  }

  /** The state a form opens with: blank for a new event, the event's values for an edit. */
  function Initial(event: Option<Event>): FormState
  {
    match event
    case None => FormState("", "", "", "", "", "", "", CategoryName(Altro), "", true, "", "", "", "")
    case Some(e) =>
      FormState(e.titolo, e.descrizione, e.dataInizio, Hhmm(e.oraInizio), OrEmpty(e.dataFine),
                Hhmm(OrEmpty(e.oraFine)), e.luogo, CategoryName(e.categoria), e.associazione,
                e.isGratuito, OrEmpty(e.costo), OrEmpty(e.linkEsterni), OrEmpty(e.contatti),
                OrEmpty(e.immagineUrl))
  }

  /** The inputs wired to handleChange: every column the form carries as text. */
  predicate IsTextField(c: Column)
  {
    c != CreatoDa && c != IsGratuito && c != IsDraft
  }

  /** The text the form holds for a column it carries as text. */
  function FormText(f: FormState, c: Column): string
    requires IsTextField(c)
  {
    match c
    case Titolo => f.titolo
    case Descrizione => f.descrizione
    case DataInizio => f.dataInizio
    case OraInizio => f.oraInizio
    case DataFine => f.dataFine
    case OraFine => f.oraFine
    case Luogo => f.luogo
    case Categoria => f.categoria
    case Associazione => f.associazione
    case ImmagineUrl => f.immagineUrl
    case Costo => f.costo
    case LinkEsterni => f.linkEsterni
    case Contatti => f.contatti
  }

  /** handleChange: `{ ...prev, [name]: value }` for the input named after the column. */
  function Change(f: FormState, c: Column, value: string): (r: FormState)
    requires IsTextField(c)
    ensures FormText(r, c) == value
    ensures forall d :: IsTextField(d) && d != c ==> FormText(r, d) == FormText(f, d)
    ensures r.isGratuito == f.isGratuito
  {
    match c
    case Titolo => f.(titolo := value)
    case Descrizione => f.(descrizione := value)
    case DataInizio => f.(dataInizio := value)
    case OraInizio => f.(oraInizio := value)
    case DataFine => f.(dataFine := value)
    case OraFine => f.(oraFine := value)
    case Luogo => f.(luogo := value)
    case Categoria => f.(categoria := value)
    case Associazione => f.(associazione := value)
    case ImmagineUrl => f.(immagineUrl := value)
    case Costo => f.(costo := value)
    case LinkEsterni => f.(linkEsterni := value)
    case Contatti => f.(contatti := value)
  }

  // ---------------------------------------------------------------------
  // The form data sent on submit
  // ---------------------------------------------------------------------

  /** The form's fields as (name, value) pairs with every value turned to text, in the object's key order. */
  function Entries(f: FormState): seq<(string, string)>
  {
    [("titolo", f.titolo), ("descrizione", f.descrizione), ("data_inizio", f.dataInizio),
     ("ora_inizio", f.oraInizio), ("data_fine", f.dataFine), ("ora_fine", f.oraFine),
     ("luogo", f.luogo), ("categoria", f.categoria), ("associazione", f.associazione),
     ("is_gratuito", BoolText(f.isGratuito)), ("costo", f.costo), ("link_esterni", f.linkEsterni),
     ("contatti", f.contatti), ("immagine_url", f.immagineUrl)]
  }

  predicate DistinctKeys(es: seq<(string, string)>)
  {
    forall i, j :: 0 <= i < j < |es| ==> es[i].0 != es[j].0
  }

  /** The form data after appending the entries one after the other. */
  function ToForm(es: seq<(string, string)>): FormData
  {
    if es == [] then map[] else ToForm(es[..|es| - 1])[es[|es| - 1].0 := es[|es| - 1].1]
  }

  /** With distinct keys, every entry can be read back under its key. */
  lemma {:induction false} ToFormLookup(es: seq<(string, string)>, i: nat)
    requires DistinctKeys(es) && i < |es|
    ensures es[i].0 in ToForm(es) && ToForm(es)[es[i].0] == es[i].1
    decreases |es|
  {
    if i < |es| - 1 {
      var front := es[..|es| - 1];
      assert DistinctKeys(front) by {
        forall a, b | 0 <= a < b < |front| ensures front[a].0 != front[b].0 {
          assert front[a] == es[a] && front[b] == es[b];
        }
      }
      ToFormLookup(front, i);
      assert front[i] == es[i];
    }
  }

  /** What handleSubmit sends: every entry of the state, then `is_draft`. */
  function Submitted(f: FormState, isDraft: bool): FormData
  {
    ToForm(Entries(f))["is_draft" := BoolText(isDraft)]
  }

  lemma EntryKeysDistinct(f: FormState)
    ensures DistinctKeys(Entries(f))
  {
  }

  /** A form data that carries the texts of a state's required inputs under their column names. */
  predicate CarriesRequired(form: FormData, f: FormState)
  {
    && Get(form, "titolo") == Some(f.titolo) && Get(form, "descrizione") == Some(f.descrizione)
    && Get(form, "data_inizio") == Some(f.dataInizio) && Get(form, "ora_inizio") == Some(f.oraInizio)
    && Get(form, "luogo") == Some(f.luogo) && Get(form, "categoria") == Some(f.categoria)
    && Get(form, "associazione") == Some(f.associazione)
  }

  /** ... and of its optional inputs. */
  predicate CarriesOptional(form: FormData, f: FormState)
  {
    && Get(form, "data_fine") == Some(f.dataFine) && Get(form, "ora_fine") == Some(f.oraFine)
    && Get(form, "costo") == Some(f.costo) && Get(form, "link_esterni") == Some(f.linkEsterni)
    && Get(form, "contatti") == Some(f.contatti) && Get(form, "immagine_url") == Some(f.immagineUrl)
  }

  /** ... and the two flags as "true" or "false". */
  predicate CarriesFlags(form: FormData, f: FormState, isDraft: bool)
  {
    Get(form, "is_gratuito") == Some(BoolText(f.isGratuito)) && Get(form, "is_draft") == Some(BoolText(isDraft))
  }

  predicate Carries(form: FormData, f: FormState, isDraft: bool)
  {
    CarriesRequired(form, f) && CarriesOptional(form, f) && CarriesFlags(form, f, isDraft)
  }

  /** The submitted form data carries every input of the state and the draft flag. */
  lemma SubmittedCarries(f: FormState, isDraft: bool)
    ensures Carries(Submitted(f, isDraft), f, isDraft)
  {
    SubmittedCarriesRequired(f, isDraft);
    SubmittedCarriesOptional(f, isDraft);
    SubmittedCarriesFlags(f, isDraft);
  }

  lemma SubmittedCarriesRequired(f: FormState, isDraft: bool)
    ensures CarriesRequired(Submitted(f, isDraft), f)
  {
    var es := Entries(f);
    EntryKeysDistinct(f);
    ToFormLookup(es, 0);
    ToFormLookup(es, 1);
    ToFormLookup(es, 2);
    ToFormLookup(es, 3);
    ToFormLookup(es, 6);
    ToFormLookup(es, 7);
    ToFormLookup(es, 8);
  }

  lemma SubmittedCarriesOptional(f: FormState, isDraft: bool)
    ensures CarriesOptional(Submitted(f, isDraft), f)
  {
    var es := Entries(f);
    EntryKeysDistinct(f);
    ToFormLookup(es, 4);
    ToFormLookup(es, 5);
    ToFormLookup(es, 10);
    ToFormLookup(es, 11);
    ToFormLookup(es, 12);
    ToFormLookup(es, 13);
  }

  lemma SubmittedCarriesFlags(f: FormState, isDraft: bool)
    ensures CarriesFlags(Submitted(f, isDraft), f, isDraft)
  {
    EntryKeysDistinct(f);
    ToFormLookup(Entries(f), 9);
  }

  /** The forEach of handleSubmit, then the draft flag. */
  method BuildFormData(f: FormState, isDraft: bool) returns (form: FormData)
    ensures form == Submitted(f, isDraft)
  {
    var es := Entries(f);
    form := map[];
    for i := 0 to |es|
      invariant form == ToForm(es[..i])
    {
      assert es[..i + 1][..i] == es[..i];
      form := form[es[i].0 := es[i].1];
    }
    assert es[..|es|] == es;
    form := form["is_draft" := BoolText(isDraft)];
  }

  // ---------------------------------------------------------------------
  // What the actions make of the submitted form
  // ---------------------------------------------------------------------

  /** creaEvento goes on exactly when the seven required inputs are not blank. */
  lemma SubmitRequiredFields(f: FormState, isDraft: bool)
    ensures RequiredFilled(Submitted(f, isDraft)) <==>
      f.titolo != "" && f.descrizione != "" && f.dataInizio != "" && f.oraInizio != ""
      && f.luogo != "" && f.categoria != "" && f.associazione != ""
  {
    SubmittedCarriesRequired(f, isDraft);
    RequiredOfCarried(Submitted(f, isDraft), f);
  }

  lemma RequiredOfCarried(form: FormData, f: FormState)
    requires CarriesRequired(form, f)
    ensures RequiredFilled(form) <==>
      f.titolo != "" && f.descrizione != "" && f.dataInizio != "" && f.oraInizio != ""
      && f.luogo != "" && f.categoria != "" && f.associazione != ""
  {
  }

  /** A form left blank is refused by creaEvento. */
  lemma BlankFormIncomplete(isDraft: bool)
    ensures !RequiredFilled(Submitted(Initial(None), isDraft))
  {
    SubmitRequiredFields(Initial(None), isDraft);
  }

  /** The insert payload a form state is meant to produce: every text, an optional one left blank as null, and both flags. */
  function CreateRow(f: FormState, isDraft: bool, uid: Id): Row
  {
    Row(
      titolo := Some(Str(f.titolo)), descrizione := Some(Str(f.descrizione)),
      dataInizio := Some(Str(f.dataInizio)), oraInizio := Some(Str(f.oraInizio)),
      dataFine := Some(NullableText(f.dataFine)), oraFine := Some(NullableText(f.oraFine)),
      luogo := Some(Str(f.luogo)), categoria := Some(Str(f.categoria)),
      associazione := Some(Str(f.associazione)), creatoDa := Some(Str(uid)),
      immagineUrl := Some(NullableText(f.immagineUrl)), costo := Some(NullableText(f.costo)),
      isGratuito := Some(Flag(f.isGratuito)), linkEsterni := Some(NullableText(f.linkEsterni)),
      contatti := Some(NullableText(f.contatti)), isDraft := Some(Flag(isDraft)))
  }

  /** The insert names what was typed, the choice of free entry and the draft flag of the button pressed. */
  lemma SubmitCreatePayload(f: FormState, isDraft: bool, uid: Id)
    ensures CreatePayload(Submitted(f, isDraft), uid) == CreateRow(f, isDraft, uid)
  {
    SubmittedCarries(f, isDraft);
    CreatePayloadOfCarried(Submitted(f, isDraft), f, isDraft, uid);
  }

  lemma CreatePayloadOfCarried(form: FormData, f: FormState, isDraft: bool, uid: Id)
    requires Carries(form, f, isDraft)
    ensures CreatePayload(form, uid) == CreateRow(f, isDraft, uid)
  {
  }

  /** The update payload a form state is meant to produce: every text, a cleared one as null, and both flags. */
  function EditRow(f: FormState, isDraft: bool): Row
  {
    Row(
      titolo := Some(NullableText(f.titolo)), descrizione := Some(NullableText(f.descrizione)),
      dataInizio := Some(NullableText(f.dataInizio)), oraInizio := Some(NullableText(f.oraInizio)),
      dataFine := Some(NullableText(f.dataFine)), oraFine := Some(NullableText(f.oraFine)),
      luogo := Some(NullableText(f.luogo)), categoria := Some(NullableText(f.categoria)),
      associazione := Some(NullableText(f.associazione)), creatoDa := None,
      immagineUrl := Some(NullableText(f.immagineUrl)), costo := Some(NullableText(f.costo)),
      isGratuito := Some(Flag(f.isGratuito)), linkEsterni := Some(NullableText(f.linkEsterni)),
      contatti := Some(NullableText(f.contatti)), isDraft := Some(Flag(isDraft)))
  }

  /**
   * modificaEvento always receives every field: each text column is
   * written, a cleared one as null, the flags are written, and the creator
   * never.
   */
  lemma SubmitEditPayload(f: FormState, isDraft: bool)
    ensures EditPayload(Submitted(f, isDraft)) == EditRow(f, isDraft)
  {
    SubmittedCarries(f, isDraft);
    EditPayloadOfCarried(Submitted(f, isDraft), f, isDraft);
  }

  lemma EditPayloadOfCarried(form: FormData, f: FormState, isDraft: bool)
    requires Carries(form, f, isDraft)
    ensures EditPayload(form) == EditRow(f, isDraft)
  {
  }

  /** The event's nullable texts are null rather than empty, as the form writes them. */
  predicate NoEmptyTexts(e: Event)
  {
    e.dataFine != Some("") && e.oraFine != Some("") && e.immagineUrl != Some("") && e.costo != Some("")
    && e.linkEsterni != Some("") && e.contatti != Some("")
  }

  /**
   * Opening an event for editing and saving it untouched writes back the
   * same event, with its times cut to hours and minutes and the draft flag
   * of the button pressed.
   */
  lemma UntouchedEditKeepsEvent(e: Event, isDraft: bool)
    requires e.titolo != "" && e.descrizione != "" && e.oraInizio != "" && e.luogo != "" && e.associazione != ""
    requires IsDate(e.dataInizio) && (e.dataFine.Some? ==> IsDate(e.dataFine.value))
    requires NoEmptyTexts(e)
    ensures ApplyUpdate(e, EditPayload(Submitted(Initial(Some(e)), isDraft))) == Some(Resaved(e, isDraft))
  {
    SubmitEditPayload(Initial(Some(e)), isDraft);
    UntouchedEditRow(e, isDraft);
  }

  /** The event as an untouched edit leaves it: times cut to hours and minutes, the draft flag of the button. */
  function Resaved(e: Event, isDraft: bool): Event
  {
    e.(oraInizio := Hhmm(e.oraInizio),
       oraFine := if e.oraFine.Some? then Some(Hhmm(e.oraFine.value)) else None,
       isDraft := isDraft)
  }

  lemma UntouchedEditRow(e: Event, isDraft: bool)
    requires e.titolo != "" && e.descrizione != "" && e.oraInizio != "" && e.luogo != "" && e.associazione != ""
    requires IsDate(e.dataInizio) && (e.dataFine.Some? ==> IsDate(e.dataFine.value))
    requires NoEmptyTexts(e)
    ensures ApplyUpdate(e, EditRow(Initial(Some(e)), isDraft)) == Some(Resaved(e, isDraft))
  {
    UntouchedDates(e, isDraft);
    UntouchedTexts(e, isDraft);
    UntouchedNullables(e, isDraft);
    CategoryNameRoundTrip(e.categoria);
    ApplyUpdateFrom(e, EditRow(Initial(Some(e)), isDraft), Resaved(e, isDraft));
  }

  lemma UntouchedDates(e: Event, isDraft: bool)
    requires IsDate(e.dataInizio) && (e.dataFine.Some? ==> IsDate(e.dataFine.value)) && e.dataFine != Some("")
    ensures DateColumn(EditRow(Initial(Some(e)), isDraft).dataInizio, e.dataInizio) == Some(Resaved(e, isDraft).dataInizio)
    ensures NullableDateColumn(EditRow(Initial(Some(e)), isDraft).dataFine, e.dataFine) == Some(Resaved(e, isDraft).dataFine)
  {
  }

  lemma UntouchedTexts(e: Event, isDraft: bool)
    requires e.titolo != "" && e.descrizione != "" && e.oraInizio != "" && e.luogo != "" && e.associazione != ""
    ensures var row, e2 := EditRow(Initial(Some(e)), isDraft), Resaved(e, isDraft);
      && TextColumn(row.titolo, e.titolo) == Some(e2.titolo)
      && TextColumn(row.descrizione, e.descrizione) == Some(e2.descrizione)
      && TextColumn(row.oraInizio, e.oraInizio) == Some(e2.oraInizio)
      && TextColumn(row.luogo, e.luogo) == Some(e2.luogo)
      && TextColumn(row.associazione, e.associazione) == Some(e2.associazione)
      && TextColumn(row.creatoDa, e.creatoDa) == Some(e2.creatoDa)
  {
  }

  lemma UntouchedNullables(e: Event, isDraft: bool)
    requires NoEmptyTexts(e)
    ensures var row, e2 := EditRow(Initial(Some(e)), isDraft), Resaved(e, isDraft);
      && NullableColumn(row.oraFine, e.oraFine) == Some(e2.oraFine)
      && NullableColumn(row.immagineUrl, e.immagineUrl) == Some(e2.immagineUrl)
      && NullableColumn(row.costo, e.costo) == Some(e2.costo)
      && NullableColumn(row.linkEsterni, e.linkEsterni) == Some(e2.linkEsterni)
      && NullableColumn(row.contatti, e.contatti) == Some(e2.contatti)
      && FlagColumn(row.isGratuito, e.isGratuito) == Some(e2.isGratuito)
      && FlagColumn(row.isDraft, e.isDraft) == Some(e2.isDraft)
  {
  }

  /** An update whose every column write yields the corresponding field of e2 leaves e2. */
  lemma ApplyUpdateFrom(e: Event, row: Row, e2: Event)
    requires e2.id == e.id && e2.viewsCount == e.viewsCount
    requires TextColumn(row.titolo, e.titolo) == Some(e2.titolo)
    requires TextColumn(row.descrizione, e.descrizione) == Some(e2.descrizione)
    requires DateColumn(row.dataInizio, e.dataInizio) == Some(e2.dataInizio)
    requires TextColumn(row.oraInizio, e.oraInizio) == Some(e2.oraInizio)
    requires NullableDateColumn(row.dataFine, e.dataFine) == Some(e2.dataFine)
    requires NullableColumn(row.oraFine, e.oraFine) == Some(e2.oraFine)
    requires TextColumn(row.luogo, e.luogo) == Some(e2.luogo)
    requires CategoryColumn(row.categoria, e.categoria) == Some(e2.categoria)
    requires TextColumn(row.associazione, e.associazione) == Some(e2.associazione)
    requires TextColumn(row.creatoDa, e.creatoDa) == Some(e2.creatoDa)
    requires NullableColumn(row.immagineUrl, e.immagineUrl) == Some(e2.immagineUrl)
    requires NullableColumn(row.costo, e.costo) == Some(e2.costo)
    requires FlagColumn(row.isGratuito, e.isGratuito) == Some(e2.isGratuito)
    requires NullableColumn(row.linkEsterni, e.linkEsterni) == Some(e2.linkEsterni)
    requires NullableColumn(row.contatti, e.contatti) == Some(e2.contatti)
    requires FlagColumn(row.isDraft, e.isDraft) == Some(e2.isDraft)
    ensures ApplyUpdate(e, row) == Some(e2)
  {
  }

  /** The error shown for a refused submission: the action's message, or 'Si è verificato un errore' when it has none. */
  function ErrorText(error: string): (r: string)
    ensures r != ""
    ensures error != "" ==> r == error
  {
    if error == "" then "Si è verificato un errore" else error
  }

  const DashboardPath := "/dashboard"

  /** The form component: the state, the error banner and where the router was sent. */
  class Editor {
    const event: Option<Event>
    var data: FormState
    var error: Option<string>
    var navigatedTo: Option<string>

    /** The price input is shown, and so can be typed in, only for a paid event. */
    predicate FreeHasNoPrice()
      reads this
    {
      data.isGratuito ==> data.costo == ""
    }

    constructor (event: Option<Event>)
      ensures this.event == event && data == Initial(event)
      ensures error.None? && navigatedTo.None?
      ensures event.None? ==> FreeHasNoPrice()
    {
      this.event := event;
      data := Initial(event);
      error := None;
      navigatedTo := None;
    }

    /** An input's onChange; the price input exists only while "A pagamento" is chosen. */
    method HandleChange(c: Column, value: string)
      requires IsTextField(c)
      requires c == Costo ==> !data.isGratuito
      modifies this
      ensures data == Change(old(data), c, value)
      ensures error == old(error) && navigatedTo == old(navigatedTo)
      ensures old(FreeHasNoPrice()) ==> FreeHasNoPrice()
    {
      data := Change(data, c, value);
    }

    /**
     * The "Gratuito" radio: free, and the price is cleared. The browser raises
     * the change only when the radio was not already checked, so the form is
     * paid when this runs.
     */
    method ChooseFree()
      requires !data.isGratuito
      modifies this
      ensures data == old(data).(isGratuito := true, costo := "")
      ensures error == old(error) && navigatedTo == old(navigatedTo)
      ensures FreeHasNoPrice()
    {
      data := data.(isGratuito := true, costo := "");
    }

    /**
     * The "A pagamento" radio: paid, and the price typed before is kept. As
     * for the other radio, the change comes only while the form is free.
     */
    method ChoosePaid()
      requires data.isGratuito
      modifies this
      ensures data == old(data).(isGratuito := false)
      ensures error == old(error) && navigatedTo == old(navigatedTo)
      ensures FreeHasNoPrice()
    {
      data := data.(isGratuito := false);
    }

    /** ImageUpload's onChange with the uploaded URL, and its onClear with ''. */
    method SetImage(url: string)
      modifies this
      ensures data == old(data).(immagineUrl := url)
      ensures error == old(error) && navigatedTo == old(navigatedTo)
      ensures old(FreeHasNoPrice()) ==> FreeHasNoPrice()
    {
      data := data.(immagineUrl := url);
    }

    /**
     * handleSubmit(isDraft): the form data goes to modificaEvento when an
     * event is being edited, to creaEvento otherwise; success sends the
     * router to the dashboard, a refusal shows its error.
     */
    method HandleSubmit(db: Database, isDraft: bool, newId: Id, storeFails: bool) returns (r: ActionResult)
      modifies this, db`events
      ensures event.Some? ==>
        (r, db.events) == Edit(db.session, db.users, old(db.events), event.value.id,
                               EditPayload(Submitted(old(data), isDraft)), storeFails)
      ensures event.None? ==>
        (r, db.events) == Create(db.session, db.users, old(db.events), Submitted(old(data), isDraft), newId, storeFails)
      ensures data == old(data)
      ensures r.Failed? ==> error == Some(ErrorText(r.error)) && navigatedTo == old(navigatedTo)
      ensures !r.Failed? ==> error.None? && navigatedTo == Some(DashboardPath)
    {
      error := None;
      var form := BuildFormData(data, isDraft);
      if event.Some? {
        r := ModificaEvento(db, event.value.id, form, storeFails);
      } else {
        r := CreaEvento(db, form, newId, storeFails);
      }
      if !r.Failed? {
        navigatedTo := Some(DashboardPath);
      } else {
        error := Some(ErrorText(r.error));
      }
    }
  }

  /**
   * With the price input shown only for paid events, a free event is sent
   * with a null price; a paid one is sent with a price exactly when one
   * was typed.
   */
  lemma FreeSubmitsNoPrice(f: FormState, isDraft: bool, uid: Id)
    requires f.isGratuito ==> f.costo == ""
    ensures f.isGratuito ==> CreatePayload(Submitted(f, isDraft), uid).costo == Some(Null)
    ensures EditPayload(Submitted(f, isDraft)).costo == Some(Null) <==> f.costo == ""
  {
    SubmitCreatePayload(f, isDraft, uid);
    SubmitEditPayload(f, isDraft);
  }
}
