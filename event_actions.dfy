// The event server actions: create, edit, delete, save-toggle and review.
// Each runs its guards in a fixed order and then performs at most one write.
// For every action a pure function computes the answer and the written
// table from the state before the call; the method that performs the action
// on the store is proved to agree with it, and the lemmas below state what
// those functions promise.

module EventActions {

  import opened Optional
  import opened Types
  import opened Seqs
  import opened Db
  import Dates
  import Text

  /** The { success, error, data } answer of an action. */
  datatype ActionResult = Done | Created(event: Event) | Toggled(saved: bool) | Failed(error: string)

  const NotAuthorized := "Non autorizzato"
  const OnlyStaffCreate := "Solo gli utenti comunali possono creare eventi"
  const MissingFields := "Tutti i campi obbligatori devono essere compilati"
  const CreateFailed := "Errore durante la creazione dell'evento"
  const EventNotFound := "Evento non trovato"
  const NoEditPermission := "Non hai i permessi per modificare questo evento"
  const EditFailed := "Errore durante la modifica dell'evento"
  const NoDeletePermission := "Non hai i permessi per eliminare questo evento"
  const DeleteFailed := "Errore durante l'eliminazione dell'evento"
  const SaveNeedsLogin := "Devi effettuare il login per salvare eventi"
  const UnsaveFailed := "Errore durante la rimozione dai preferiti"
  const SaveFailed := "Errore durante il salvataggio nei preferiti"
  const ReviewNeedsLogin := "Devi effettuare il login per lasciare una recensione"
  const InvalidData := "Dati non validi"
  const ReviewTooEarly := "Puoi lasciare una recensione solo dopo che l'evento \U{E8} terminato"
  const AlreadyReviewed := "Hai gi\U{E0} lasciato una recensione per questo evento"
  const ReviewFailed := "Errore durante l'invio della recensione"

  // ---------------------------------------------------------------------
  // creaEvento
  // ---------------------------------------------------------------------

  /** The fields creaEvento refuses to go on without. */
  predicate RequiredFilled(form: FormData)
  {
    && Field(form, "titolo") != "" && Field(form, "descrizione") != "" && Field(form, "data_inizio") != ""
    && Field(form, "ora_inizio") != "" && Field(form, "luogo") != "" && Field(form, "categoria") != ""
    && Field(form, "associazione") != ""
  }

  /** `value || null` on a form text, as a payload value. */
  function NullableText(s: string): Value
  {
    if s == "" then Null else Str(s)
  }

  /** The insert payload: every column, with the signed-in user as creator. */
  function CreatePayload(form: FormData, uid: Id): Row
  {
    Row(
      titolo := Some(Str(Field(form, "titolo"))),
      descrizione := Some(Str(Field(form, "descrizione"))),
      dataInizio := Some(Str(Field(form, "data_inizio"))),
      oraInizio := Some(Str(Field(form, "ora_inizio"))),
      dataFine := Some(NullableText(Field(form, "data_fine"))),
      oraFine := Some(NullableText(Field(form, "ora_fine"))),
      luogo := Some(Str(Field(form, "luogo"))),
      categoria := Some(Str(Field(form, "categoria"))),
      associazione := Some(Str(Field(form, "associazione"))),
      creatoDa := Some(Str(uid)),
      immagineUrl := Some(NullableText(Field(form, "immagine_url"))),
      costo := Some(NullableText(Field(form, "costo"))),
      isGratuito := Some(Flag(Get(form, "is_gratuito") == Some("true"))),
      linkEsterni := Some(NullableText(Field(form, "link_esterni"))),
      contatti := Some(NullableText(Field(form, "contatti"))),
      isDraft := Some(Flag(Get(form, "is_draft") == Some("true"))))
  }

  /** The answer of creaEvento and the events table after it. */
  function Create(session: Option<Id>, users: map<Id, User>, events: seq<Event>, form: FormData,
                  newId: Id, storeFails: bool): (ActionResult, seq<Event>)
  {
    if session.None? then (Failed(NotAuthorized), events)
    else if !(RoleOf(users, session.value) == Some(Comunale) || RoleOf(users, session.value) == Some(Admin)) then
      (Failed(OnlyStaffCreate), events)
    else if !RequiredFilled(form) then (Failed(MissingFields), events)
    else StoreInsert(events, newId, CreatePayload(form, session.value), storeFails)
  }

  /** The insert itself: refused on a store failure, a taken key or a row the table rejects. */
  function StoreInsert(events: seq<Event>, newId: Id, row: Row, storeFails: bool): (ActionResult, seq<Event>)
  {
    if storeFails || !IdFree(events, newId) then (Failed(CreateFailed), events)
    else match InsertEvent(newId, row)
      case None => (Failed(CreateFailed), events)
      case Some(e) => (Created(e), events + [e])
  }

  method CreaEvento(db: Database, form: FormData, newId: Id, storeFails: bool) returns (r: ActionResult)
    modifies db`events
    ensures (r, db.events) == Create(db.session, db.users, old(db.events), form, newId, storeFails)
  {
    if db.session.None? {
      return Failed(NotAuthorized);
    }
    var uid := db.session.value;
    var role := RoleOf(db.users, uid);
    if role != Some(Comunale) && role != Some(Admin) {
      return Failed(OnlyStaffCreate);
    }
    if !RequiredFilled(form) {
      return Failed(MissingFields);
    }
    if storeFails || !IdFree(db.events, newId) {
      return Failed(CreateFailed);
    }
    var inserted := InsertEvent(newId, CreatePayload(form, uid));
    if inserted.None? {
      return Failed(CreateFailed);
    }
    db.events := db.events + [inserted.value];
    r := Created(inserted.value);
  }

  /** Whatever creaEvento answers, the table either stays as it was or gains exactly the created row. */
  lemma CreateWritesOnlyOnSuccess(session: Option<Id>, users: map<Id, User>, events: seq<Event>,
                                  form: FormData, newId: Id, storeFails: bool)
    ensures var (r, t) := Create(session, users, events, form, newId, storeFails);
      (r.Failed? ==> t == events) && (r.Created? ==> t == events + [r.event]) && (r.Failed? || r.Created?)
  {
  }

  /** The guards, in their order: session, then role, then the required fields; only then the insert. */
  lemma CreateGuardOrder(session: Option<Id>, users: map<Id, User>, events: seq<Event>,
                         form: FormData, newId: Id, storeFails: bool)
    ensures var (r, _) := Create(session, users, events, form, newId, storeFails);
      && (r == Failed(NotAuthorized) <==> session.None?)
      && (r == Failed(OnlyStaffCreate) <==> session.Some? && !IsStaff(users, session.value))
      && (r == Failed(MissingFields) <==> session.Some? && IsStaff(users, session.value) && !RequiredFilled(form))
      && (r.Created? ==> session.Some? && IsStaff(users, session.value) && RequiredFilled(form) && !storeFails)
  {
  }

  predicate IsStaff(users: map<Id, User>, uid: Id)
  {
    uid in users && Types.IsStaff(users[uid].role)
  }

  /** The row a successful create stores: the form's texts, nulls for empty optional fields, the caller as creator. */
  lemma CreatedRow(session: Option<Id>, users: map<Id, User>, events: seq<Event>,
                   form: FormData, newId: Id, storeFails: bool)
    requires Create(session, users, events, form, newId, storeFails).0.Created?
    ensures var e := Create(session, users, events, form, newId, storeFails).0.event;
      && e.id == newId && e.creatoDa == session.value && e.viewsCount == 0
      && e.titolo == form["titolo"] && e.descrizione == form["descrizione"] && e.luogo == form["luogo"]
      && e.dataInizio == form["data_inizio"] && e.oraInizio == form["ora_inizio"]
      && e.associazione == form["associazione"] && CategoryName(e.categoria) == form["categoria"]
      && e.dataFine == OrNull(Field(form, "data_fine")) && e.oraFine == OrNull(Field(form, "ora_fine"))
      && e.immagineUrl == OrNull(Field(form, "immagine_url")) && e.costo == OrNull(Field(form, "costo"))
      && e.linkEsterni == OrNull(Field(form, "link_esterni")) && e.contatti == OrNull(Field(form, "contatti"))
      && (e.isGratuito <==> Get(form, "is_gratuito") == Some("true"))
      && (e.isDraft <==> Get(form, "is_draft") == Some("true"))
  {
    var uid := session.value;
    var row := CreatePayload(form, uid);
    var e := Create(session, users, events, form, newId, storeFails).0.event;
    assert InsertEvent(newId, row) == Some(e);
    assert ApplyUpdate(BlankEvent(newId), row) == Some(e);
    CreatedTexts(newId, row, form, uid, e);
    CreatedNullables(newId, row, form, e);
    CreatedOthers(newId, row, form, e);
  }

  // The created row read column by column, in three small groups.
  lemma CreatedTexts(newId: Id, row: Row, form: FormData, uid: Id, e: Event)
    requires row == CreatePayload(form, uid) && ApplyUpdate(BlankEvent(newId), row) == Some(e)
    ensures e.creatoDa == uid && e.titolo == Field(form, "titolo") && e.descrizione == Field(form, "descrizione")
    ensures e.luogo == Field(form, "luogo") && e.dataInizio == Field(form, "data_inizio")
    ensures e.oraInizio == Field(form, "ora_inizio") && e.associazione == Field(form, "associazione")
  {
    ApplyUpdateTexts(BlankEvent(newId), row);
  }

  lemma CreatedNullables(newId: Id, row: Row, form: FormData, e: Event)
    requires row.dataFine == Some(NullableText(Field(form, "data_fine")))
    requires row.oraFine == Some(NullableText(Field(form, "ora_fine")))
    requires row.immagineUrl == Some(NullableText(Field(form, "immagine_url")))
    requires row.costo == Some(NullableText(Field(form, "costo")))
    requires row.linkEsterni == Some(NullableText(Field(form, "link_esterni")))
    requires row.contatti == Some(NullableText(Field(form, "contatti")))
    requires ApplyUpdate(BlankEvent(newId), row) == Some(e)
    ensures e.dataFine == OrNull(Field(form, "data_fine")) && e.oraFine == OrNull(Field(form, "ora_fine"))
    ensures e.immagineUrl == OrNull(Field(form, "immagine_url")) && e.costo == OrNull(Field(form, "costo"))
    ensures e.linkEsterni == OrNull(Field(form, "link_esterni")) && e.contatti == OrNull(Field(form, "contatti"))
  {
    ApplyUpdateNullables(BlankEvent(newId), row);
  }

  lemma CreatedOthers(newId: Id, row: Row, form: FormData, e: Event)
    requires row.categoria == Some(Str(Field(form, "categoria")))
    requires row.isGratuito == Some(Flag(Get(form, "is_gratuito") == Some("true")))
    requires row.isDraft == Some(Flag(Get(form, "is_draft") == Some("true")))
    requires ApplyUpdate(BlankEvent(newId), row) == Some(e)
    ensures CategoryName(e.categoria) == Field(form, "categoria")
    ensures e.isGratuito <==> Get(form, "is_gratuito") == Some("true")
    ensures e.isDraft <==> Get(form, "is_draft") == Some("true")
  {
    ApplyUpdateOthers(BlankEvent(newId), row);
  }

  /** A create keeps the table's keys unique and its start dates well-formed. */
  lemma CreatePreservesValid(session: Option<Id>, users: map<Id, User>, events: seq<Event>,
                             form: FormData, newId: Id, storeFails: bool)
    requires EventsValid(events)
    ensures EventsValid(Create(session, users, events, form, newId, storeFails).1)
  {
    if session.Some? && RequiredFilled(form) {
      StoreInsertPreservesValid(events, newId, CreatePayload(form, session.value), storeFails);
    }
  }

  lemma StoreInsertPreservesValid(events: seq<Event>, newId: Id, row: Row, storeFails: bool)
    requires EventsValid(events)
    ensures EventsValid(StoreInsert(events, newId, row, storeFails).1)
  {
    var (r, t) := StoreInsert(events, newId, row, storeFails);
    if r.Created? {
      assert t == events + [r.event] && r.event.id == newId && IdFree(events, newId);
      assert forall i :: 0 <= i < |events| ==> t[i] == events[i];
    }
  }

  // ---------------------------------------------------------------------
  // modificaEvento
  // ---------------------------------------------------------------------

  /** The twelve fields the edit copies when the form carries them. */
  const EditableFields: seq<Column> :=
    [Titolo, Descrizione, DataInizio, OraInizio, DataFine,
     OraFine, Luogo, Categoria, Associazione, LinkEsterni,
     Contatti, ImmagineUrl]

  /** A column carried by the form: the empty text becomes null, any other text is copied. */
  function TextSlot(form: FormData, name: string): Option<Value>
  {
    if name in form then Some(NullableText(form[name])) else None
  }

  /** A flag carried by the form: true exactly for the text 'true'. */
  function FlagSlot(form: FormData, name: string): Option<Value>
  {
    if name in form then Some(Flag(form[name] == "true")) else None
  }

  /** The twelve fields copied by the loop: named when the form carries them, '' becoming null. */
  function CopiedPayload(form: FormData): Row
  {
    Row(
      titolo := TextSlot(form, ColumnName(Titolo)),
      descrizione := TextSlot(form, ColumnName(Descrizione)),
      dataInizio := TextSlot(form, ColumnName(DataInizio)),
      oraInizio := TextSlot(form, ColumnName(OraInizio)),
      dataFine := TextSlot(form, ColumnName(DataFine)),
      oraFine := TextSlot(form, ColumnName(OraFine)),
      luogo := TextSlot(form, ColumnName(Luogo)),
      categoria := TextSlot(form, ColumnName(Categoria)),
      associazione := TextSlot(form, ColumnName(Associazione)),
      creatoDa := None,
      immagineUrl := TextSlot(form, ColumnName(ImmagineUrl)),
      costo := None,
      isGratuito := None,
      linkEsterni := TextSlot(form, ColumnName(LinkEsterni)),
      contatti := TextSlot(form, ColumnName(Contatti)),
      isDraft := None)
  }

  /**
   * The update payload: the twelve copied fields, then costo (its text, or
   * null for '') and the two flags when the form carries them. The creator
   * is never written.
   */
  function EditPayload(form: FormData): Row
  {
    CopiedPayload(form).(costo := TextSlot(form, "costo"), isGratuito := FlagSlot(form, "is_gratuito"),
                         isDraft := FlagSlot(form, "is_draft"))
  }

  /** The forEach over the twelve field names: each one the form carries is copied, '' becoming null. */
  method CopyFields(form: FormData) returns (upd: Row)
    ensures upd == CopiedPayload(form)
  {
    upd := EmptyRow;
    for i := 0 to |EditableFields|
      invariant forall c :: Slot(upd, c) == if c in EditableFields[..i] then TextSlot(form, ColumnName(c)) else None
    {
      var field := EditableFields[i];
      var value := Get(form, ColumnName(field));
      assert EditableFields[..i + 1] == EditableFields[..i] + [field];
      if value != None {
        upd := SetSlot(upd, field, if value.value == "" then Null else Str(value.value));
      }
    }
    assert EditableFields[..|EditableFields|] == EditableFields;
    CopiedFields(form, upd);
  }

  // The copy loop's final state read column by column, in four small groups.
  lemma CopiedColumnsA(form: FormData, upd: Row)
    requires forall c :: Slot(upd, c) == if c in EditableFields then TextSlot(form, ColumnName(c)) else None
    ensures upd.titolo == TextSlot(form, ColumnName(Titolo))
    ensures upd.descrizione == TextSlot(form, ColumnName(Descrizione))
    ensures upd.dataInizio == TextSlot(form, ColumnName(DataInizio))
    ensures upd.oraInizio == TextSlot(form, ColumnName(OraInizio))
  {
    assert Slot(upd, Titolo) == upd.titolo && Titolo in EditableFields;
    assert Slot(upd, Descrizione) == upd.descrizione && Descrizione in EditableFields;
    assert Slot(upd, DataInizio) == upd.dataInizio && DataInizio in EditableFields;
    assert Slot(upd, OraInizio) == upd.oraInizio && OraInizio in EditableFields;
  }

  lemma CopiedColumnsB(form: FormData, upd: Row)
    requires forall c :: Slot(upd, c) == if c in EditableFields then TextSlot(form, ColumnName(c)) else None
    ensures upd.dataFine == TextSlot(form, ColumnName(DataFine))
    ensures upd.oraFine == TextSlot(form, ColumnName(OraFine))
    ensures upd.luogo == TextSlot(form, ColumnName(Luogo))
    ensures upd.categoria == TextSlot(form, ColumnName(Categoria))
  {
    assert Slot(upd, DataFine) == upd.dataFine && DataFine in EditableFields;
    assert Slot(upd, OraFine) == upd.oraFine && OraFine in EditableFields;
    assert Slot(upd, Luogo) == upd.luogo && Luogo in EditableFields;
    assert Slot(upd, Categoria) == upd.categoria && Categoria in EditableFields;
  }

  lemma CopiedColumnsC(form: FormData, upd: Row)
    requires forall c :: Slot(upd, c) == if c in EditableFields then TextSlot(form, ColumnName(c)) else None
    ensures upd.associazione == TextSlot(form, ColumnName(Associazione))
    ensures upd.linkEsterni == TextSlot(form, ColumnName(LinkEsterni))
    ensures upd.contatti == TextSlot(form, ColumnName(Contatti))
    ensures upd.immagineUrl == TextSlot(form, ColumnName(ImmagineUrl))
  {
    assert Slot(upd, Associazione) == upd.associazione && Associazione in EditableFields;
    assert Slot(upd, LinkEsterni) == upd.linkEsterni && LinkEsterni in EditableFields;
    assert Slot(upd, Contatti) == upd.contatti && Contatti in EditableFields;
    assert Slot(upd, ImmagineUrl) == upd.immagineUrl && ImmagineUrl in EditableFields;
  }

  lemma UncopiedColumns(form: FormData, upd: Row)
    requires forall c :: Slot(upd, c) == if c in EditableFields then TextSlot(form, ColumnName(c)) else None
    ensures upd.creatoDa == None && upd.costo == None && upd.isGratuito == None && upd.isDraft == None
  {
    NotEditable();
    assert Slot(upd, CreatoDa) == upd.creatoDa;
    assert Slot(upd, Costo) == upd.costo;
    assert Slot(upd, IsGratuito) == upd.isGratuito;
    assert Slot(upd, IsDraft) == upd.isDraft;
  }

  /** The creator, the cost and the two flags are not among the copied fields. */
  lemma NotEditable()
    ensures CreatoDa !in EditableFields && Costo !in EditableFields
    ensures IsGratuito !in EditableFields && IsDraft !in EditableFields
  {
  }

  lemma CopiedFields(form: FormData, upd: Row)
    requires forall c :: Slot(upd, c) == if c in EditableFields then TextSlot(form, ColumnName(c)) else None
    ensures upd == CopiedPayload(form)
  {
    CopiedColumnsA(form, upd);
    CopiedColumnsB(form, upd);
    CopiedColumnsC(form, upd);
    UncopiedColumns(form, upd);
  }

  /** Builds the update payload: the twelve fields, then costo, is_gratuito and is_draft when present. */
  method BuildEditPayload(form: FormData) returns (upd: Row)
    ensures upd == EditPayload(form)
  {
    upd := CopyFields(form);
    var costo := Get(form, "costo");
    if costo != None {
      upd := upd.(costo := Some(if costo.value != "" then Str(costo.value) else Null));
    }
    var isGratuito := Get(form, "is_gratuito");
    if isGratuito != None {
      upd := upd.(isGratuito := Some(Flag(isGratuito.value == "true")));
    }
    var isDraft := Get(form, "is_draft");
    if isDraft != None {
      upd := upd.(isDraft := Some(Flag(isDraft.value == "true")));
    }
  }

  /** May the caller change or remove an event: an admin, or the event's creator. */
  predicate MayManage(users: map<Id, User>, uid: Id, e: Event)
  {
    RoleOf(users, uid) == Some(Admin) || e.creatoDa == uid
  }

  /** The table with the rows whose key is e.id replaced by e. */
  function ReplaceEvent(events: seq<Event>, e: Event): (r: seq<Event>)
    ensures |r| == |events|
    ensures forall i :: 0 <= i < |events| ==> r[i] == (if events[i].id == e.id then e else events[i])
  {
    if events == [] then [] else [if events[0].id == e.id then e else events[0]] + ReplaceEvent(events[1..], e)
  }

  /** The answer of modificaEvento and the events table after it. */
  function Edit(session: Option<Id>, users: map<Id, User>, events: seq<Event>, eventId: Id,
                payload: Row, storeFails: bool): (ActionResult, seq<Event>)
  {
    if session.None? then (Failed(NotAuthorized), events)
    else match EventById(events, eventId)
      case None => (Failed(EventNotFound), events)
      case Some(existing) =>
        if !MayManage(users, session.value, existing) then (Failed(NoEditPermission), events)
        else if storeFails then (Failed(EditFailed), events)
        else match ApplyUpdate(existing, payload)
          case None => (Failed(EditFailed), events)
          case Some(e) => (Done, ReplaceEvent(events, e))
  }

  method ModificaEvento(db: Database, eventId: Id, form: FormData, storeFails: bool) returns (r: ActionResult)
    modifies db`events
    ensures (r, db.events) == Edit(db.session, db.users, old(db.events), eventId, EditPayload(form), storeFails)
  {
    if db.session.None? {
      return Failed(NotAuthorized);
    }
    var uid := db.session.value;
    var role := RoleOf(db.users, uid);
    var existing := EventById(db.events, eventId);
    if existing.None? {
      return Failed(EventNotFound);
    }
    if role != Some(Admin) && existing.value.creatoDa != uid {
      return Failed(NoEditPermission);
    }
    var upd := BuildEditPayload(form);
    if storeFails {
      return Failed(EditFailed);
    }
    var updated := ApplyUpdate(existing.value, upd);
    if updated.None? {
      return Failed(EditFailed);
    }
    db.events := ReplaceEvent(db.events, updated.value);
    r := Done;
  }

  /** 'Evento non trovato' comes before the permission check, and only an admin or the creator can write. */
  lemma EditGuards(session: Option<Id>, users: map<Id, User>, events: seq<Event>, eventId: Id,
                   payload: Row, storeFails: bool)
    ensures var (r, t) := Edit(session, users, events, eventId, payload, storeFails);
      && (session.Some? && EventById(events, eventId).None? ==> r == Failed(EventNotFound))
      && (r == Failed(NoEditPermission) <==>
            session.Some? && EventById(events, eventId).Some?
            && !MayManage(users, session.value, EventById(events, eventId).value))
      && (t != events ==> r == Done)
      && (r == Done ==>
            session.Some? && EventById(events, eventId).Some?
            && MayManage(users, session.value, EventById(events, eventId).value))
  {
  }

  /**
   * The payload names a column exactly when the form carries its field; the
   * creator is never named, and a carried empty text becomes null.
   */
  lemma EditPayloadNames(form: FormData)
    ensures EditPayload(form).creatoDa == None
    ensures forall c :: c != CreatoDa ==> (Slot(EditPayload(form), c).Some? <==> ColumnName(c) in form)
    ensures forall c :: c != CreatoDa && c != IsGratuito && c != IsDraft && ColumnName(c) in form ==>
      Slot(EditPayload(form), c) == Some(if form[ColumnName(c)] == "" then Null else Str(form[ColumnName(c)]))
  {
    var row := EditPayload(form);
    forall c | c != CreatoDa
      ensures Slot(row, c).Some? <==> ColumnName(c) in form
      ensures c != IsGratuito && c != IsDraft && ColumnName(c) in form ==>
        Slot(row, c) == Some(if form[ColumnName(c)] == "" then Null else Str(form[ColumnName(c)]))
    {
      match c
      case Titolo =>
      case Descrizione =>
      case DataInizio =>
      case OraInizio =>
      case DataFine =>
      case OraFine =>
      case Luogo =>
      case Categoria =>
      case Associazione =>
      case ImmagineUrl =>
      case Costo =>
      case IsGratuito =>
      case LinkEsterni =>
      case Contatti =>
      case IsDraft =>
    }
  }

  // What an accepted edit leaves in the row, for a payload built from the
  // form as EditPayload builds it: a column the form does not carry keeps its
  // value, a carried one takes the form's text ('' giving null, which the
  // NOT NULL columns refuse).

  /** The creator, key and counter are never touched; NOT NULL texts cannot be blanked. */
  lemma EditedTexts(e: Event, row: Row, form: FormData)
    requires row.titolo == TextSlot(form, "titolo") && row.luogo == TextSlot(form, "luogo") && row.creatoDa == None
    requires ApplyUpdate(e, row).Some?
    ensures var e2 := ApplyUpdate(e, row).value;
      && e2.id == e.id && e2.creatoDa == e.creatoDa && e2.viewsCount == e.viewsCount
      && ("titolo" !in form ==> e2.titolo == e.titolo)
      && ("titolo" in form ==> e2.titolo == form["titolo"] != "")
      && ("luogo" !in form ==> e2.luogo == e.luogo)
      && ("luogo" in form ==> e2.luogo == form["luogo"] != "")
  {
    ApplyUpdateTexts(e, row);
  }

  /** Nullable columns: a carried '' clears them, any other text is copied. */
  lemma EditedNullables(e: Event, row: Row, form: FormData)
    requires row.dataFine == TextSlot(form, "data_fine") && row.contatti == TextSlot(form, "contatti")
    requires row.costo == TextSlot(form, "costo")
    requires ApplyUpdate(e, row).Some?
    ensures var e2 := ApplyUpdate(e, row).value;
      && ("data_fine" !in form ==> e2.dataFine == e.dataFine)
      && ("data_fine" in form ==> e2.dataFine == OrNull(form["data_fine"]))
      && ("contatti" !in form ==> e2.contatti == e.contatti)
      && ("contatti" in form ==> e2.contatti == OrNull(form["contatti"]))
      && ("costo" !in form ==> e2.costo == e.costo)
      && ("costo" in form ==> e2.costo == OrNull(form["costo"]))
  {
    ApplyUpdateNullables(e, row);
  }

  /** The two flags: a carried field sets the flag exactly when it reads 'true'. */
  lemma EditedFlags(e: Event, row: Row, form: FormData)
    requires row.isGratuito == FlagSlot(form, "is_gratuito") && row.isDraft == FlagSlot(form, "is_draft")
    requires ApplyUpdate(e, row).Some?
    ensures var e2 := ApplyUpdate(e, row).value;
      && ("is_gratuito" !in form ==> e2.isGratuito == e.isGratuito)
      && ("is_gratuito" in form ==> (e2.isGratuito <==> form["is_gratuito"] == "true"))
      && ("is_draft" !in form ==> e2.isDraft == e.isDraft)
      && ("is_draft" in form ==> (e2.isDraft <==> form["is_draft"] == "true"))
  {
    ApplyUpdateOthers(e, row);
  }

  /**
   * The action itself never looks at the category text: a permitted edit
   * naming a text that is no category reaches the store, and only the
   * column's enum refuses it.
   */
  lemma EditLeavesCategoryToStore(session: Option<Id>, users: map<Id, User>, events: seq<Event>,
                                  eventId: Id, form: FormData, payload: Row)
    requires session.Some? && EventById(events, eventId).Some?
    requires MayManage(users, session.value, EventById(events, eventId).value)
    requires payload.categoria == TextSlot(form, "categoria")
    requires "categoria" in form && form["categoria"] != "" && ParseCategory(form["categoria"]).None?
    ensures Edit(session, users, events, eventId, payload, false) == (Failed(EditFailed), events)
  {
  }

  /** An edit keeps the table's keys unique and its start dates well-formed. */
  lemma EditPreservesValid(session: Option<Id>, users: map<Id, User>, events: seq<Event>, eventId: Id,
                           payload: Row, storeFails: bool)
    requires EventsValid(events)
    ensures EventsValid(Edit(session, users, events, eventId, payload, storeFails).1)
  {
    var (r, t) := Edit(session, users, events, eventId, payload, storeFails);
    if r == Done {
      var existing := EventById(events, eventId).value;
      assert existing in EventsWithId(events, eventId);
      var e := ApplyUpdate(existing, payload).value;
      ReplaceKeepsValid(events, existing, e);
    }
  }

  /** Replacing a row by one with the same key and a well-formed start date keeps the table valid. */
  lemma ReplaceKeepsValid(events: seq<Event>, existing: Event, e: Event)
    requires EventsValid(events) && existing in events
    requires e.id == existing.id && IsDate(e.dataInizio)
    ensures EventsValid(ReplaceEvent(events, e))
  {
    var t := ReplaceEvent(events, e);
    assert forall i :: 0 <= i < |t| ==> t[i].id == events[i].id;
  }

  // ---------------------------------------------------------------------
  // eliminaEvento
  // ---------------------------------------------------------------------

  /** delete from events where id = … */
  function WithoutEvent(events: seq<Event>, id: Id): seq<Event>
  {
    if events == [] then [] else (if events[0].id != id then [events[0]] else []) + WithoutEvent(events[1..], id)
  }

  /** The answer of eliminaEvento and the events table after it. */
  function Delete(session: Option<Id>, users: map<Id, User>, events: seq<Event>, eventId: Id,
                  storeFails: bool): (ActionResult, seq<Event>)
  {
    if session.None? then (Failed(NotAuthorized), events)
    else match EventById(events, eventId)
      case None => (Failed(EventNotFound), events)
      case Some(existing) =>
        if !MayManage(users, session.value, existing) then (Failed(NoDeletePermission), events)
        else if storeFails then (Failed(DeleteFailed), events)
        else (Done, WithoutEvent(events, eventId))
  }

  /**
   * eliminaEvento. The foreign keys reviews.event_id and saved_events.event_id
   * cascade: the one delete also removes the event's reviews and saves.
   */
  method EliminaEvento(db: Database, eventId: Id, storeFails: bool) returns (r: ActionResult)
    modifies db`events, db`reviews, db`savedEvents
    ensures (r, db.events) == Delete(db.session, db.users, old(db.events), eventId, storeFails)
    ensures db.reviews == if r == Done then ReviewsCascade(old(db.reviews), eventId) else old(db.reviews)
    ensures db.savedEvents == if r == Done then SavesCascade(old(db.savedEvents), eventId) else old(db.savedEvents)
  {
    if db.session.None? {
      return Failed(NotAuthorized);
    }
    var uid := db.session.value;
    var role := RoleOf(db.users, uid);
    var existing := EventById(db.events, eventId);
    if existing.None? {
      return Failed(EventNotFound);
    }
    if role != Some(Admin) && existing.value.creatoDa != uid {
      return Failed(NoDeletePermission);
    }
    if storeFails {
      return Failed(DeleteFailed);
    }
    db.events := WithoutEvent(db.events, eventId);
    db.reviews := ReviewsCascade(db.reviews, eventId);
    db.savedEvents := SavesCascade(db.savedEvents, eventId);
    r := Done;
  }

  /** Not-found before permission; a deletion happens only for an admin or the creator, and removes that event only. */
  lemma DeleteGuards(session: Option<Id>, users: map<Id, User>, events: seq<Event>, eventId: Id, storeFails: bool)
    ensures var (r, t) := Delete(session, users, events, eventId, storeFails);
      && (session.Some? && EventById(events, eventId).None? ==> r == Failed(EventNotFound))
      && (r == Failed(NoDeletePermission) <==>
            session.Some? && EventById(events, eventId).Some?
            && !MayManage(users, session.value, EventById(events, eventId).value))
      && (r != Done ==> t == events)
      && (r == Done ==>
            session.Some? && EventById(events, eventId).Some?
            && MayManage(users, session.value, EventById(events, eventId).value))
  {
  }

  /** A deletion removes exactly the row with that key and keeps the others in order. */
  lemma DeleteRemovesOne(events: seq<Event>, i: nat)
    requires UniqueEventIds(events) && i < |events|
    ensures WithoutEvent(events, events[i].id) == events[..i] + events[i + 1..]
  {
    WithoutEventSplit(events, events[i].id, i);
  }

  lemma {:induction false} WithoutEventSplit(events: seq<Event>, id: Id, i: nat)
    requires UniqueEventIds(events) && i < |events| && events[i].id == id
    ensures WithoutEvent(events, id) == events[..i] + events[i + 1..]
    decreases |events|
  {
    if i == 0 {
      forall j | 0 <= j < |events[1..]| ensures events[1..][j].id != id {
        assert events[0].id != events[j + 1].id;
      }
      WithoutAbsent(events[1..], id);
      assert WithoutEvent(events, id) == WithoutEvent(events[1..], id);
    } else {
      var rest := events[1..];
      assert UniqueEventIds(rest) by {
        forall a, b | 0 <= a < b < |rest| ensures rest[a].id != rest[b].id {
          assert events[a + 1].id != events[b + 1].id;
        }
      }
      WithoutEventSplit(rest, id, i - 1);
      assert events[0].id != id by {
        assert events[0].id != events[i].id;
      }
      assert WithoutEvent(events, id) == [events[0]] + WithoutEvent(rest, id);
      assert rest[..i - 1] == events[1..i] && rest[i..] == events[i + 1..];
      assert events[..i] == [events[0]] + events[1..i];
    }
  }

  lemma {:induction false} WithoutAbsent(events: seq<Event>, id: Id)
    requires IdFree(events, id)
    ensures WithoutEvent(events, id) == events
    decreases |events|
  {
    if events != [] {
      WithoutAbsent(events[1..], id);
    }
  }

  /** The reviews left by `on delete cascade` when an event goes: exactly those of other events, in order. */
  function ReviewsCascade(reviews: seq<Review>, eventId: Id): (r: seq<Review>)
    ensures IsSubsequence(r, reviews)
    ensures forall x :: x in r <==> x in reviews && x.eventId != eventId
  {
    FilterIsSubsequence(reviews, (x: Review) => x.eventId != eventId);
    FilterMembers(reviews, (x: Review) => x.eventId != eventId);
    Filter(reviews, (x: Review) => x.eventId != eventId)
  }

  /** The saved_events rows left by `on delete cascade` when an event goes. */
  function SavesCascade(saved: seq<SavedEvent>, eventId: Id): (r: seq<SavedEvent>)
    ensures IsSubsequence(r, saved)
    ensures forall x :: x in r <==> x in saved && x.eventId != eventId
  {
    FilterIsSubsequence(saved, (x: SavedEvent) => x.eventId != eventId);
    FilterMembers(saved, (x: SavedEvent) => x.eventId != eventId);
    Filter(saved, (x: SavedEvent) => x.eventId != eventId)
  }

  /** Some row of the events table has the key. */
  predicate HasEvent(events: seq<Event>, id: Id)
  {
    exists i :: 0 <= i < |events| && events[i].id == id
  }

  /** Every review and every saved row names an event of the table. */
  predicate NoOrphans(events: seq<Event>, reviews: seq<Review>, saved: seq<SavedEvent>)
  {
    && (forall i :: 0 <= i < |reviews| ==> HasEvent(events, reviews[i].eventId))
    && (forall i :: 0 <= i < |saved| ==> HasEvent(events, saved[i].eventId))
  }

  /** Deleting a key keeps exactly the events with other keys. */
  lemma {:induction false} WithoutEventMembers(events: seq<Event>, id: Id, other: Id)
    requires other != id
    ensures HasEvent(WithoutEvent(events, id), other) <==> HasEvent(events, other)
    decreases |events|
  {
    if events != [] {
      WithoutEventMembers(events[1..], id, other);
      var head: seq<Event> := if events[0].id != id then [events[0]] else [];
      var rest := WithoutEvent(events[1..], id);
      assert WithoutEvent(events, id) == head + rest;
      if HasEvent(events, other) {
        var i :| 0 <= i < |events| && events[i].id == other;
        if i == 0 {
          assert (head + rest)[0] == events[0];
        } else {
          assert events[1..][i - 1].id == other;
          var j :| 0 <= j < |rest| && rest[j].id == other;
          assert (head + rest)[|head| + j] == rest[j];
        }
      }
      if HasEvent(head + rest, other) {
        var j :| 0 <= j < |head + rest| && (head + rest)[j].id == other;
        if j < |head| {
          assert events[0].id == other;
        } else {
          assert rest[j - |head|].id == other;
          var k :| 0 <= k < |events[1..]| && events[1..][k].id == other;
          assert events[k + 1].id == other;
        }
      }
    }
  }

  /**
   * A deletion leaves no orphan: after it no review and no saved row names the
   * deleted event, and rows that named an existing event still do.
   */
  lemma DeleteLeavesNoOrphans(events: seq<Event>, reviews: seq<Review>, saved: seq<SavedEvent>, eventId: Id)
    requires NoOrphans(events, reviews, saved)
    ensures NoOrphans(WithoutEvent(events, eventId), ReviewsCascade(reviews, eventId), SavesCascade(saved, eventId))
    ensures !HasEvent(WithoutEvent(events, eventId), eventId)
  {
    var es := WithoutEvent(events, eventId);
    var rs := ReviewsCascade(reviews, eventId);
    var ss := SavesCascade(saved, eventId);
    forall i | 0 <= i < |rs| ensures HasEvent(es, rs[i].eventId) {
      assert rs[i] in reviews;
      var k :| 0 <= k < |reviews| && reviews[k] == rs[i];
      WithoutEventMembers(events, eventId, rs[i].eventId);
    }
    forall i | 0 <= i < |ss| ensures HasEvent(es, ss[i].eventId) {
      assert ss[i] in saved;
      var k :| 0 <= k < |saved| && saved[k] == ss[i];
      WithoutEventMembers(events, eventId, ss[i].eventId);
    }
    WithoutEventDropsKey(events, eventId);
  }

  lemma {:induction false} WithoutEventDropsKey(events: seq<Event>, id: Id)
    ensures !HasEvent(WithoutEvent(events, id), id)
    decreases |events|
  {
    if events != [] {
      WithoutEventDropsKey(events[1..], id);
      var head: seq<Event> := if events[0].id != id then [events[0]] else [];
      var rest := WithoutEvent(events[1..], id);
      assert WithoutEvent(events, id) == head + rest;
      forall j: int | 0 <= j < |head + rest| ensures (head + rest)[j].id != id {
        if j >= |head| {
          assert (head + rest)[j] == rest[j - |head|];
        }
      }
    }
  }

  // ---------------------------------------------------------------------
  // salvaEvento
  // ---------------------------------------------------------------------

  function WithoutSaved(saved: seq<SavedEvent>, id: Id): seq<SavedEvent>
  {
    Filter(saved, (s: SavedEvent) => s.id != id)
  }

  /**
   * The answer of salvaEvento and the saved_events table after it. The insert
   * is refused when the key is taken or, by the foreign key on
   * saved_events.event_id, when no event has the id.
   */
  function Toggle(session: Option<Id>, events: seq<Event>, saved: seq<SavedEvent>, eventId: Id, newId: Id,
                  storeFails: bool): (ActionResult, seq<SavedEvent>)
  {
    if session.None? then (Failed(SaveNeedsLogin), saved)
    else match Single(SavedRows(saved, session.value, eventId))
      case Some(existing) =>
        if storeFails then (Failed(UnsaveFailed), saved)
        else (Toggled(false), WithoutSaved(saved, existing.id))
      case None =>
        if storeFails || !SavedIdFree(saved, newId) || !HasEvent(events, eventId) then (Failed(SaveFailed), saved)
        else (Toggled(true), saved + [SavedEvent(newId, session.value, eventId)])
  }

  method SalvaEvento(db: Database, eventId: Id, newId: Id, storeFails: bool) returns (r: ActionResult)
    modifies db`savedEvents
    ensures (r, db.savedEvents) == Toggle(db.session, db.events, old(db.savedEvents), eventId, newId, storeFails)
  {
    if db.session.None? {
      return Failed(SaveNeedsLogin);
    }
    var uid := db.session.value;
    var existing := Single(SavedRows(db.savedEvents, uid, eventId));
    if existing.Some? {
      if storeFails {
        return Failed(UnsaveFailed);
      }
      db.savedEvents := WithoutSaved(db.savedEvents, existing.value.id);
      return Toggled(false);
    } else {
      if storeFails || !SavedIdFree(db.savedEvents, newId) || !HasEvent(db.events, eventId) {
        return Failed(SaveFailed);
      }
      db.savedEvents := db.savedEvents + [SavedEvent(newId, uid, eventId)];
      return Toggled(true);
    }
  }

  /** The (user, event) pairs a saved_events table records. */
  function SavedPairs(saved: seq<SavedEvent>): set<(Id, Id)>
  {
    set i | 0 <= i < |saved| :: (saved[i].userId, saved[i].eventId)
  }

  lemma {:induction false} SavedRowsEmpty(saved: seq<SavedEvent>, uid: Id, eid: Id)
    requires forall i :: 0 <= i < |saved| ==> saved[i].userId != uid || saved[i].eventId != eid
    ensures SavedRows(saved, uid, eid) == []
    decreases |saved|
  {
    if saved != [] {
      SavedRowsEmpty(saved[1..], uid, eid);
    }
  }

  lemma PairAbsent(saved: seq<SavedEvent>, uid: Id, eid: Id)
    requires (uid, eid) !in SavedPairs(saved)
    ensures forall i :: 0 <= i < |saved| ==> saved[i].userId != uid || saved[i].eventId != eid
  {
    forall i | 0 <= i < |saved| ensures saved[i].userId != uid || saved[i].eventId != eid {
      assert (saved[i].userId, saved[i].eventId) in SavedPairs(saved);
    }
  }

  lemma {:induction false} SavedRowsOne(saved: seq<SavedEvent>, uid: Id, eid: Id)
    requires SavedValid(saved) && (uid, eid) in SavedPairs(saved)
    ensures |SavedRows(saved, uid, eid)| == 1
    ensures var row := SavedRows(saved, uid, eid)[0]; row.userId == uid && row.eventId == eid && row in saved
    decreases |saved|
  {
    var k :| 0 <= k < |saved| && (saved[k].userId, saved[k].eventId) == (uid, eid);
    assert saved == [saved[0]] + saved[1..];
    if k == 0 {
      forall j | 0 <= j < |saved[1..]| ensures saved[1..][j].userId != uid || saved[1..][j].eventId != eid {
        assert saved[0].userId != saved[j + 1].userId || saved[0].eventId != saved[j + 1].eventId;
      }
      SavedRowsEmpty(saved[1..], uid, eid);
    } else {
      assert (saved[1..][k - 1].userId, saved[1..][k - 1].eventId) == (uid, eid);
      assert (uid, eid) in SavedPairs(saved[1..]);
      assert saved[0].userId != uid || saved[0].eventId != eid by {
        assert saved[0].userId != saved[k].userId || saved[0].eventId != saved[k].eventId;
      }
      SavedRowsOne(saved[1..], uid, eid);
    }
  }

  /** Removing the row with a given key drops its pair and keeps every other row's. */
  lemma WithoutSavedPairs(saved: seq<SavedEvent>, k: nat)
    requires SavedValid(saved) && k < |saved|
    ensures SavedPairs(WithoutSaved(saved, saved[k].id)) == SavedPairs(saved) - {(saved[k].userId, saved[k].eventId)}
  {
    var t := WithoutSaved(saved, saved[k].id);
    var p := (saved[k].userId, saved[k].eventId);
    forall q | q in SavedPairs(saved) - {p} ensures q in SavedPairs(t) {
      var i :| 0 <= i < |saved| && (saved[i].userId, saved[i].eventId) == q;
      assert saved[i].id != saved[k].id;
      assert saved[i] in t;
      var j :| 0 <= j < |t| && t[j] == saved[i];
    }
    forall q | q in SavedPairs(t) ensures q in SavedPairs(saved) - {p} {
      var j :| 0 <= j < |t| && (t[j].userId, t[j].eventId) == q;
      assert t[j] in saved && t[j].id != saved[k].id;
      var i :| 0 <= i < |saved| && saved[i] == t[j];
      assert i != k;
    }
  }

  lemma SnocPairs(saved: seq<SavedEvent>, row: SavedEvent)
    ensures SavedPairs(saved + [row]) == SavedPairs(saved) + {(row.userId, row.eventId)}
  {
    var t := saved + [row];
    forall q | q in SavedPairs(saved) ensures q in SavedPairs(t) {
      var i :| 0 <= i < |saved| && (saved[i].userId, saved[i].eventId) == q;
      assert t[i] == saved[i];
    }
    assert t[|saved|] == row;
  }

  /**
   * salvaEvento toggles the caller's pair: a successful call records it
   * exactly when it was not recorded, and leaves every other pair alone.
   */
  lemma ToggleFlipsPair(session: Option<Id>, events: seq<Event>, saved: seq<SavedEvent>, eventId: Id, newId: Id, storeFails: bool)
    requires SavedValid(saved)
    ensures var (r, t) := Toggle(session, events, saved, eventId, newId, storeFails);
      && (r.Failed? ==> t == saved)
      && (r.Toggled? ==>
            session.Some?
            && (r.saved <==> (session.value, eventId) !in SavedPairs(saved))
            && (r.saved ==> HasEvent(events, eventId))
            && (r.saved ==> SavedPairs(t) == SavedPairs(saved) + {(session.value, eventId)})
            && (!r.saved ==> SavedPairs(t) == SavedPairs(saved) - {(session.value, eventId)}))
  {
    if session.Some? {
      var uid := session.value;
      var (r, t) := Toggle(session, events, saved, eventId, newId, storeFails);
      if (uid, eventId) in SavedPairs(saved) {
        SavedRowsOne(saved, uid, eventId);
        var row := SavedRows(saved, uid, eventId)[0];
        var k :| 0 <= k < |saved| && saved[k] == row;
        WithoutSavedPairs(saved, k);
      } else {
        PairAbsent(saved, uid, eventId);
        SavedRowsEmpty(saved, uid, eventId);
        SnocPairs(saved, SavedEvent(newId, uid, eventId));
      }
    }
  }

  /** A toggle keeps the keys unique and at most one row per pair. */
  lemma TogglePreservesValid(session: Option<Id>, events: seq<Event>, saved: seq<SavedEvent>, eventId: Id, newId: Id, storeFails: bool)
    requires SavedValid(saved)
    ensures SavedValid(Toggle(session, events, saved, eventId, newId, storeFails).1)
  {
    var (r, t) := Toggle(session, events, saved, eventId, newId, storeFails);
    if r == Toggled(true) {
      var uid := session.value;
      if (uid, eventId) in SavedPairs(saved) {
        SavedRowsOne(saved, uid, eventId);
      } else {
        PairAbsent(saved, uid, eventId);
      }
    } else if r == Toggled(false) {
      var row := Single(SavedRows(saved, session.value, eventId)).value;
      FilterIsSubsequence(saved, (s: SavedEvent) => s.id != row.id);
      SubsequenceValid(t, saved);
    }
  }

  lemma {:induction false} SubsequenceValid(a: seq<SavedEvent>, b: seq<SavedEvent>)
    requires IsSubsequence(a, b) && SavedValid(b)
    ensures SavedValid(a)
    decreases |b|
  {
    if a != [] {
      if a[0] == b[0] && IsSubsequence(a[1..], b[1..]) {
        SubsequenceValid(a[1..], b[1..]);
        SubsequenceMembers(a[1..], b[1..]);
        forall j | 0 < j < |a| ensures a[0].id != a[j].id && (a[0].userId != a[j].userId || a[0].eventId != a[j].eventId) {
          assert a[1..][j - 1] in b[1..];
          var m :| 0 <= m < |b[1..]| && b[1..][m] == a[j];
          assert b[0].id != b[m + 1].id;
        }
      } else {
        SubsequenceValid(a, b[1..]);
      }
    }
  }

  lemma {:induction false} SubsequenceMembers<T>(a: seq<T>, b: seq<T>)
    requires IsSubsequence(a, b)
    ensures forall i :: 0 <= i < |a| ==> a[i] in b
    decreases |b|
  {
    if a != [] {
      if a[0] == b[0] && IsSubsequence(a[1..], b[1..]) {
        SubsequenceMembers(a[1..], b[1..]);
        assert forall i :: 1 <= i < |a| ==> a[i] == a[1..][i - 1];
      } else {
        SubsequenceMembers(a, b[1..]);
      }
    }
  }

  /** Two successful toggles of the same event by the same caller give back the recorded pairs. */
  lemma ToggleTwice(session: Option<Id>, events: seq<Event>, saved: seq<SavedEvent>, eventId: Id, id1: Id, id2: Id)
    requires SavedValid(saved)
    requires Toggle(session, events, saved, eventId, id1, false).0.Toggled?
    requires Toggle(session, events, Toggle(session, events, saved, eventId, id1, false).1, eventId, id2, false).0.Toggled?
    ensures SavedPairs(Toggle(session, events, Toggle(session, events, saved, eventId, id1, false).1, eventId, id2, false).1)
            == SavedPairs(saved)
  {
    var (r1, t1) := Toggle(session, events, saved, eventId, id1, false);
    ToggleFlipsPair(session, events, saved, eventId, id1, false);
    TogglePreservesValid(session, events, saved, eventId, id1, false);
    ToggleFlipsPair(session, events, t1, eventId, id2, false);
  }

  /** A toggle leaves no saved row that names an event the table does not have. */
  lemma ToggleKeepsNoOrphans(session: Option<Id>, events: seq<Event>, reviews: seq<Review>,
                             saved: seq<SavedEvent>, eventId: Id, newId: Id, storeFails: bool)
    requires NoOrphans(events, reviews, saved)
    ensures NoOrphans(events, reviews, Toggle(session, events, saved, eventId, newId, storeFails).1)
  {
    var (r, t) := Toggle(session, events, saved, eventId, newId, storeFails);
    if r == Toggled(false) {
      var row := Single(SavedRows(saved, session.value, eventId)).value;
      FilterMembers(saved, (s: SavedEvent) => s.id != row.id);
      forall i | 0 <= i < |t| ensures HasEvent(events, t[i].eventId) {
        assert t[i] in saved;
        var k :| 0 <= k < |saved| && saved[k] == t[i];
      }
    } else if r == Toggled(true) {
      forall i | 0 <= i < |t| ensures HasEvent(events, t[i].eventId) {
        if i < |saved| {
          assert t[i] == saved[i];
        }
      }
    }
  }

  // ---------------------------------------------------------------------
  // aggiungiRecensione
  // ---------------------------------------------------------------------

  /** `!rating || rating < 1 || rating > 5` rejects NaN, 0 and everything outside 1..5. */
  predicate RatingAccepted(rating: Option<int>)
  {
    rating.Some? && rating.value != 0 && 1 <= rating.value <= 5
  }

  /**
   * new Date(data_inizio) > new Date(): a date-only text is midnight UTC of
   * that day; a text that is no date gives an invalid Date, which compares false.
   */
  predicate StartsAfter(dataInizio: string, now: int)
  {
    match Dates.ParseIsoDate(dataInizio)
    case Some(day) => Dates.DayStart(day) > now
    case None => false
  }

  /** The answer of aggiungiRecensione and the reviews table after it. */
  function AddReview(session: Option<Id>, events: seq<Event>, reviews: seq<Review>, form: FormData,
                     now: int, newId: Id, storeFails: bool): (ActionResult, seq<Review>)
  {
    var eventId := Field(form, "event_id");
    var rating := Text.ParseInt(Field(form, "rating"));
    if session.None? then (Failed(ReviewNeedsLogin), reviews)
    else if eventId == "" || !RatingAccepted(rating) then (Failed(InvalidData), reviews)
    else RecordReview(session.value, events, reviews, eventId, rating.value, OrNull(Field(form, "commento")),
                      now, newId, storeFails)
  }

  /** The part of aggiungiRecensione after the form is accepted: event lookup, date gate, uniqueness, insert. */
  function RecordReview(uid: Id, events: seq<Event>, reviews: seq<Review>, eventId: Id, rating: int,
                        commento: Option<string>, now: int, newId: Id, storeFails: bool): (ActionResult, seq<Review>)
  {
    match EventById(events, eventId)
    case None => (Failed(EventNotFound), reviews)
    case Some(e) =>
      if StartsAfter(e.dataInizio, now) then (Failed(ReviewTooEarly), reviews)
      else if Single(ReviewRows(reviews, uid, eventId)).Some? then (Failed(AlreadyReviewed), reviews)
      else if storeFails || !ReviewIdFree(reviews, newId) then (Failed(ReviewFailed), reviews)
      else (Done, reviews + [Review(newId, eventId, uid, rating, commento)])
  }

  method AggiungiRecensione(db: Database, form: FormData, now: int, newId: Id, storeFails: bool)
    returns (r: ActionResult)
    modifies db`reviews
    ensures (r, db.reviews) == AddReview(db.session, db.events, old(db.reviews), form, now, newId, storeFails)
  {
    if db.session.None? {
      return Failed(ReviewNeedsLogin);
    }
    var uid := db.session.value;
    var eventId := Field(form, "event_id");
    var rating := Text.ParseInt(Field(form, "rating"));
    var commento := Get(form, "commento");
    if eventId == "" || rating.None? || rating.value == 0 || rating.value < 1 || rating.value > 5 {
      return Failed(InvalidData);
    }
    var event := EventById(db.events, eventId);
    if event.None? {
      return Failed(EventNotFound);
    }
    if StartsAfter(event.value.dataInizio, now) {
      return Failed(ReviewTooEarly);
    }
    var existing := Single(ReviewRows(db.reviews, uid, eventId));
    if existing.Some? {
      return Failed(AlreadyReviewed);
    }
    if storeFails || !ReviewIdFree(db.reviews, newId) {
      return Failed(ReviewFailed);
    }
    var text := if commento.Some? then commento.value else "";
    db.reviews := db.reviews + [Review(newId, eventId, uid, rating.value, OrNull(text))];
    r := Done;
  }

  /** The rejections in their order: session, form data, missing event, date gate, earlier review. */
  lemma AddReviewGuardOrder(session: Option<Id>, events: seq<Event>, reviews: seq<Review>, form: FormData,
                            now: int, newId: Id, storeFails: bool)
    ensures var (r, t) := AddReview(session, events, reviews, form, now, newId, storeFails);
      && (r == Failed(ReviewNeedsLogin) <==> session.None?)
      && (r == Failed(InvalidData) <==>
            session.Some? && (Field(form, "event_id") == "" || !RatingAccepted(Text.ParseInt(Field(form, "rating")))))
      && (r == Failed(EventNotFound) ==> EventById(events, Field(form, "event_id")).None?)
      && (r == Failed(ReviewTooEarly) ==> StartsAfter(EventById(events, Field(form, "event_id")).value.dataInizio, now))
      && (r == Failed(AlreadyReviewed) ==> |ReviewRows(reviews, session.value, Field(form, "event_id"))| == 1)
      && (r != Done ==> t == reviews)
  {
  }

  /** A successful review appends one row: the caller's, for an event already started, rated 1 to 5. */
  lemma AddReviewSuccess(session: Option<Id>, events: seq<Event>, reviews: seq<Review>, form: FormData,
                         now: int, newId: Id, storeFails: bool)
    requires AddReview(session, events, reviews, form, now, newId, storeFails).0 == Done
    ensures Single(ReviewRows(reviews, session.value, form["event_id"])).None?
    ensures var t := AddReview(session, events, reviews, form, now, newId, storeFails).1;
      && |t| == |reviews| + 1 && t[..|reviews|] == reviews
      && var row := t[|reviews|];
      && row.userId == session.value && row.eventId == form["event_id"] && row.id == newId
      && 1 <= row.rating <= 5 && Text.ParseInt(form["rating"]) == Some(row.rating)
      && row.commento == OrNull(Field(form, "commento"))
      && EventById(events, row.eventId).Some?
      && !StartsAfter(EventById(events, row.eventId).value.dataInizio, now)
  {
    var eventId := Field(form, "event_id");
    var rating := Text.ParseInt(Field(form, "rating"));
    RecordReviewSuccess(session.value, events, reviews, eventId, rating.value, OrNull(Field(form, "commento")),
                        now, newId, storeFails);
  }

  lemma RecordReviewSuccess(uid: Id, events: seq<Event>, reviews: seq<Review>, eventId: Id, rating: int,
                            commento: Option<string>, now: int, newId: Id, storeFails: bool)
    requires RecordReview(uid, events, reviews, eventId, rating, commento, now, newId, storeFails).0 == Done
    ensures Single(ReviewRows(reviews, uid, eventId)).None?
    ensures RecordReview(uid, events, reviews, eventId, rating, commento, now, newId, storeFails).1
      == reviews + [Review(newId, eventId, uid, rating, commento)]
    ensures EventById(events, eventId).Some? && !StartsAfter(EventById(events, eventId).value.dataInizio, now)
  {
  }

  /**
   * The date gate compares the start day's midnight (UTC) with now: a review
   * is let through from the first instant of the start day, whatever the
   * start time or end date, and refused before it.
   */
  lemma ReviewGateIsStartDay(dataInizio: string, day: int, now: int)
    requires Dates.ParseIsoDate(dataInizio) == Some(day)
    ensures StartsAfter(dataInizio, now) <==> Dates.DayOf(now) < day
  {
    Dates.DayOfBounds(now);
  }

  predicate OneReviewPerPair(reviews: seq<Review>)
  {
    forall i, j :: 0 <= i < j < |reviews| ==> reviews[i].userId != reviews[j].userId || reviews[i].eventId != reviews[j].eventId
  }

  lemma {:induction false} ReviewRowsEmpty(reviews: seq<Review>, uid: Id, eid: Id)
    requires forall i :: 0 <= i < |reviews| ==> reviews[i].userId != uid || reviews[i].eventId != eid
    ensures ReviewRows(reviews, uid, eid) == []
    decreases |reviews|
  {
    if reviews != [] {
      ReviewRowsEmpty(reviews[1..], uid, eid);
    }
  }

  lemma {:induction false} ReviewRowsOne(reviews: seq<Review>, uid: Id, eid: Id, k: nat)
    requires OneReviewPerPair(reviews) && k < |reviews| && reviews[k].userId == uid && reviews[k].eventId == eid
    ensures |ReviewRows(reviews, uid, eid)| == 1
    decreases |reviews|
  {
    assert reviews == [reviews[0]] + reviews[1..];
    if k == 0 {
      forall i | 0 <= i < |reviews[1..]| ensures reviews[1..][i].userId != uid || reviews[1..][i].eventId != eid {
        assert reviews[0].userId != reviews[i + 1].userId || reviews[0].eventId != reviews[i + 1].eventId;
      }
      ReviewRowsEmpty(reviews[1..], uid, eid);
    } else {
      assert reviews[0].userId != reviews[k].userId || reviews[0].eventId != reviews[k].eventId;
      ReviewRowsOne(reviews[1..], uid, eid, k - 1);
    }
  }

  /** Where each user has at most one review per event, a successful review keeps it so. */
  lemma AddReviewPreservesOnePerPair(session: Option<Id>, events: seq<Event>, reviews: seq<Review>,
                                     form: FormData, now: int, newId: Id, storeFails: bool)
    requires OneReviewPerPair(reviews)
    ensures OneReviewPerPair(AddReview(session, events, reviews, form, now, newId, storeFails).1)
  {
    var eventId := Field(form, "event_id");
    var rating := Text.ParseInt(Field(form, "rating"));
    if session.Some? && eventId != "" && RatingAccepted(rating) {
      RecordPreservesOnePerPair(session.value, events, reviews, eventId, rating.value,
                                OrNull(Field(form, "commento")), now, newId, storeFails);
    }
  }

  lemma RecordPreservesOnePerPair(uid: Id, events: seq<Event>, reviews: seq<Review>, eventId: Id, rating: int,
                                  commento: Option<string>, now: int, newId: Id, storeFails: bool)
    requires OneReviewPerPair(reviews)
    ensures OneReviewPerPair(RecordReview(uid, events, reviews, eventId, rating, commento, now, newId, storeFails).1)
  {
    var (r, t) := RecordReview(uid, events, reviews, eventId, rating, commento, now, newId, storeFails);
    if r == Done {
      RecordReviewSuccess(uid, events, reviews, eventId, rating, commento, now, newId, storeFails);
      forall i | 0 <= i < |reviews| ensures reviews[i].userId != uid || reviews[i].eventId != eventId {
        if reviews[i].userId == uid && reviews[i].eventId == eventId {
          ReviewRowsOne(reviews, uid, eventId, i);
        }
      }
    }
  }
}
