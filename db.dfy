// The in-memory stand-in for the hosted backend the server actions talk to:
// the auth provider's identities and current session, the five tables and
// the event-images storage bucket. Column constraints the actions rely on
// (primary keys, NOT NULL, the category enum, date columns) are checked
// here, by the functions that compute what a write leaves behind.

module Db {

  import opened Optional
  import opened Types
  import opened Seqs
  import Dates

  /** A submitted form: field name to text. A name that is absent is one FormData.get answers null for. */
  type FormData = map<string, string>

  /** formData.get(k) */
  function Get(form: FormData, k: string): Option<string>
  {
    if k in form then Some(form[k]) else None
  }

  /** formData.get(k) as string, where the code only tests its truthiness: absent and empty read alike. */
  function Field(form: FormData, k: string): string
  {
    if k in form then form[k] else ""
  }

  /** `value || null` on a text. */
  function OrNull(s: string): Option<string>
  {
    if s == "" then None else Some(s)
  }

  /** A value in an insert or update payload. */
  datatype Value = Null | Str(text: string) | Flag(flag: bool)

  /** The writable columns of the events table. */
  datatype Column =
    | Titolo | Descrizione | DataInizio | OraInizio | DataFine | OraFine | Luogo | Categoria
    | Associazione | CreatoDa | ImmagineUrl | Costo | IsGratuito | LinkEsterni | Contatti | IsDraft

  /** The column's name, which is also the name of the form field that carries it. */
  function ColumnName(c: Column): string
  {
    match c
    case Titolo => "titolo"
    case Descrizione => "descrizione"
    case DataInizio => "data_inizio"
    case OraInizio => "ora_inizio"
    case DataFine => "data_fine"
    case OraFine => "ora_fine"
    case Luogo => "luogo"
    case Categoria => "categoria"
    case Associazione => "associazione"
    case CreatoDa => "creato_da"
    case ImmagineUrl => "immagine_url"
    case Costo => "costo"
    case IsGratuito => "is_gratuito"
    case LinkEsterni => "link_esterni"
    case Contatti => "contatti"
    case IsDraft => "is_draft"
  }

  /**
   * An insert or update payload for the events table: for each column, the
   * value the payload names for it, or None when the payload leaves it out.
   */
  datatype Row = Row(
    titolo: Option<Value>, descrizione: Option<Value>, dataInizio: Option<Value>, oraInizio: Option<Value>,
    dataFine: Option<Value>, oraFine: Option<Value>, luogo: Option<Value>, categoria: Option<Value>,
    associazione: Option<Value>, creatoDa: Option<Value>, immagineUrl: Option<Value>, costo: Option<Value>,
    isGratuito: Option<Value>, linkEsterni: Option<Value>, contatti: Option<Value>, isDraft: Option<Value>)

  /** The payload `{}`. */
  const EmptyRow: Row := Row(None, None, None, None, None, None, None, None, None, None, None, None, None, None, None, None)

  /** What the payload names for a column. */
  function Slot(row: Row, c: Column): Option<Value>
  {
    match c
    case Titolo => row.titolo
    case Descrizione => row.descrizione
    case DataInizio => row.dataInizio
    case OraInizio => row.oraInizio
    case DataFine => row.dataFine
    case OraFine => row.oraFine
    case Luogo => row.luogo
    case Categoria => row.categoria
    case Associazione => row.associazione
    case CreatoDa => row.creatoDa
    case ImmagineUrl => row.immagineUrl
    case Costo => row.costo
    case IsGratuito => row.isGratuito
    case LinkEsterni => row.linkEsterni
    case Contatti => row.contatti
    case IsDraft => row.isDraft
  }

  /** `payload[column] = v`: names v for one column and leaves the others as they were. */
  function SetSlot(row: Row, c: Column, v: Value): (r: Row)
    ensures forall d :: Slot(r, d) == if d == c then Some(v) else Slot(row, d)
  {
    match c
    case Titolo => row.(titolo := Some(v))
    case Descrizione => row.(descrizione := Some(v))
    case DataInizio => row.(dataInizio := Some(v))
    case OraInizio => row.(oraInizio := Some(v))
    case DataFine => row.(dataFine := Some(v))
    case OraFine => row.(oraFine := Some(v))
    case Luogo => row.(luogo := Some(v))
    case Categoria => row.(categoria := Some(v))
    case Associazione => row.(associazione := Some(v))
    case CreatoDa => row.(creatoDa := Some(v))
    case ImmagineUrl => row.(immagineUrl := Some(v))
    case Costo => row.(costo := Some(v))
    case IsGratuito => row.(isGratuito := Some(v))
    case LinkEsterni => row.(linkEsterni := Some(v))
    case Contatti => row.(contatti := Some(v))
    case IsDraft => row.(isDraft := Some(v))
  }

  /** Two payloads naming the same value for every column are the same payload. */
  lemma RowExtensional(a: Row, b: Row)
    requires forall c :: Slot(a, c) == Slot(b, c)
    ensures a == b
  {
    assert Slot(a, Titolo) == Slot(b, Titolo) && Slot(a, Descrizione) == Slot(b, Descrizione);
    assert Slot(a, DataInizio) == Slot(b, DataInizio) && Slot(a, OraInizio) == Slot(b, OraInizio);
    assert Slot(a, DataFine) == Slot(b, DataFine) && Slot(a, OraFine) == Slot(b, OraFine);
    assert Slot(a, Luogo) == Slot(b, Luogo) && Slot(a, Categoria) == Slot(b, Categoria);
    assert Slot(a, Associazione) == Slot(b, Associazione) && Slot(a, CreatoDa) == Slot(b, CreatoDa);
    assert Slot(a, ImmagineUrl) == Slot(b, ImmagineUrl) && Slot(a, Costo) == Slot(b, Costo);
    assert Slot(a, IsGratuito) == Slot(b, IsGratuito) && Slot(a, LinkEsterni) == Slot(b, LinkEsterni);
    assert Slot(a, Contatti) == Slot(b, Contatti) && Slot(a, IsDraft) == Slot(b, IsDraft);
  }

  /** An account of the auth provider. */
  datatype Identity = Identity(id: Id, email: string, password: string, confirmed: bool)

  // ---------------------------------------------------------------------
  // Column writes. Each answers the column's new value, or None when the
  // store refuses the value (a type mismatch, a null in a NOT NULL column,
  // a text that is not a date or not a category).
  // ---------------------------------------------------------------------

  function TextColumn(slot: Option<Value>, current: string): Option<string>
  {
    match slot
    case None => Some(current)
    case Some(Str(s)) => Some(s)
    case Some(_) => None
  }

  function NullableColumn(slot: Option<Value>, current: Option<string>): Option<Option<string>>
  {
    match slot
    case None => Some(current)
    case Some(Null) => Some(None)
    case Some(Str(s)) => Some(Some(s))
    case Some(Flag(_)) => None
  }

  predicate IsDate(s: string)
  {
    Dates.ParseIsoDate(s).Some?
  }

  function DateColumn(slot: Option<Value>, current: string): Option<string>
  {
    match TextColumn(slot, current)
    case Some(s) => if IsDate(s) then Some(s) else None
    case None => None
  }

  function NullableDateColumn(slot: Option<Value>, current: Option<string>): Option<Option<string>>
  {
    match NullableColumn(slot, current)
    case Some(Some(s)) => if IsDate(s) then Some(Some(s)) else None
    case other => other
  }

  function CategoryColumn(slot: Option<Value>, current: Category): Option<Category>
  {
    match slot
    case None => Some(current)
    case Some(Str(s)) => ParseCategory(s)
    case Some(_) => None
  }

  function FlagColumn(slot: Option<Value>, current: bool): Option<bool>
  {
    match slot
    case None => Some(current)
    case Some(Flag(b)) => Some(b)
    case Some(_) => None
  }

  /**
   * The row an update payload leaves behind, or None when the store refuses
   * the payload. Columns not named in the payload keep their value.
   */
  function ApplyUpdate(e: Event, row: Row): (r: Option<Event>)
    ensures r.Some? ==> r.value.id == e.id && r.value.viewsCount == e.viewsCount
    ensures r.Some? ==> IsDate(r.value.dataInizio) || (row.dataInizio.None? && r.value.dataInizio == e.dataInizio)
  {
    var titolo := TextColumn(row.titolo, e.titolo);
    var descrizione := TextColumn(row.descrizione, e.descrizione);
    var dataInizio := DateColumn(row.dataInizio, e.dataInizio);
    var oraInizio := TextColumn(row.oraInizio, e.oraInizio);
    var dataFine := NullableDateColumn(row.dataFine, e.dataFine);
    var oraFine := NullableColumn(row.oraFine, e.oraFine);
    var luogo := TextColumn(row.luogo, e.luogo);
    var categoria := CategoryColumn(row.categoria, e.categoria);
    var associazione := TextColumn(row.associazione, e.associazione);
    var creatoDa := TextColumn(row.creatoDa, e.creatoDa);
    var immagineUrl := NullableColumn(row.immagineUrl, e.immagineUrl);
    var costo := NullableColumn(row.costo, e.costo);
    var isGratuito := FlagColumn(row.isGratuito, e.isGratuito);
    var linkEsterni := NullableColumn(row.linkEsterni, e.linkEsterni);
    var contatti := NullableColumn(row.contatti, e.contatti);
    var isDraft := FlagColumn(row.isDraft, e.isDraft);
    if titolo.Some? && descrizione.Some? && dataInizio.Some? && oraInizio.Some? && dataFine.Some?
       && oraFine.Some? && luogo.Some? && categoria.Some? && associazione.Some? && creatoDa.Some?
       && immagineUrl.Some? && costo.Some? && isGratuito.Some? && linkEsterni.Some? && contatti.Some?
       && isDraft.Some?
    then
      Some(Event(e.id, titolo.value, descrizione.value, dataInizio.value, oraInizio.value, dataFine.value,
                 oraFine.value, luogo.value, categoria.value, associazione.value, creatoDa.value,
                 immagineUrl.value, costo.value, isGratuito.value, linkEsterni.value, contatti.value,
                 e.viewsCount, isDraft.value))
    else None
  }

  /** A NOT NULL text column after a write: kept when the payload leaves it out, otherwise the named text. */
  predicate TextWritten(slot: Option<Value>, before: string, after: string)
  {
    if slot.Some? then slot.value == Str(after) else after == before
  }

  /** A nullable text column after a write: kept when left out, otherwise the text or null named. */
  predicate NullableWritten(slot: Option<Value>, before: Option<string>, after: Option<string>)
  {
    if slot.Some? then slot.value == (if after.Some? then Str(after.value) else Null) else after == before
  }

  predicate FlagWritten(slot: Option<Value>, before: bool, after: bool)
  {
    if slot.Some? then slot.value == Flag(after) else after == before
  }

  /** Column by column, what an accepted write leaves in the row: the texts. */
  lemma ApplyUpdateTexts(e: Event, row: Row)
    requires ApplyUpdate(e, row).Some?
    ensures var e2 := ApplyUpdate(e, row).value;
      && TextWritten(row.titolo, e.titolo, e2.titolo)
      && TextWritten(row.descrizione, e.descrizione, e2.descrizione)
      && TextWritten(row.dataInizio, e.dataInizio, e2.dataInizio)
      && TextWritten(row.oraInizio, e.oraInizio, e2.oraInizio)
      && TextWritten(row.luogo, e.luogo, e2.luogo)
      && TextWritten(row.associazione, e.associazione, e2.associazione)
      && TextWritten(row.creatoDa, e.creatoDa, e2.creatoDa)
  {
  }

  /** Column by column, what an accepted write leaves in the row: the nullable columns. */
  lemma ApplyUpdateNullables(e: Event, row: Row)
    requires ApplyUpdate(e, row).Some?
    ensures var e2 := ApplyUpdate(e, row).value;
      && NullableWritten(row.dataFine, e.dataFine, e2.dataFine)
      && NullableWritten(row.oraFine, e.oraFine, e2.oraFine)
      && NullableWritten(row.immagineUrl, e.immagineUrl, e2.immagineUrl)
      && NullableWritten(row.costo, e.costo, e2.costo)
      && NullableWritten(row.linkEsterni, e.linkEsterni, e2.linkEsterni)
      && NullableWritten(row.contatti, e.contatti, e2.contatti)
  {
    ApplyUpdateDates(e, row);
    ApplyUpdateLinks(e, row);
  }

  lemma ApplyUpdateDates(e: Event, row: Row)
    requires ApplyUpdate(e, row).Some?
    ensures var e2 := ApplyUpdate(e, row).value;
      && NullableWritten(row.dataFine, e.dataFine, e2.dataFine)
      && NullableWritten(row.oraFine, e.oraFine, e2.oraFine)
      && NullableWritten(row.costo, e.costo, e2.costo)
  {
  }

  lemma ApplyUpdateLinks(e: Event, row: Row)
    requires ApplyUpdate(e, row).Some?
    ensures var e2 := ApplyUpdate(e, row).value;
      && NullableWritten(row.immagineUrl, e.immagineUrl, e2.immagineUrl)
      && NullableWritten(row.linkEsterni, e.linkEsterni, e2.linkEsterni)
      && NullableWritten(row.contatti, e.contatti, e2.contatti)
  {
  }

  /** Column by column, what an accepted write leaves in the row: the category and the flags. */
  lemma ApplyUpdateOthers(e: Event, row: Row)
    requires ApplyUpdate(e, row).Some?
    ensures var e2 := ApplyUpdate(e, row).value;
      && (if row.categoria.Some? then row.categoria.value == Str(CategoryName(e2.categoria))
          else e2.categoria == e.categoria)
      && FlagWritten(row.isGratuito, e.isGratuito, e2.isGratuito)
      && FlagWritten(row.isDraft, e.isDraft, e2.isDraft)
  {
  }

  /** The columns an insert into events must name (NOT NULL without a default). */
  const RequiredColumns: seq<Column> :=
    [Titolo, Descrizione, DataInizio, OraInizio, Luogo, Categoria, Associazione, CreatoDa]

  /** What an inserted row starts from before the payload is applied: the column defaults. */
  function BlankEvent(id: Id): Event
  {
    Event(id, "", "", "", "", None, None, "", Altro, "", "", None, None, false, None, None, 0, false)
  }

  /** The row an insert creates under the given primary key, or None when the store refuses it. */
  function InsertEvent(id: Id, row: Row): (r: Option<Event>)
    ensures r.Some? ==> r.value.id == id && r.value.viewsCount == 0 && IsDate(r.value.dataInizio)
  {
    if forall c :: c in RequiredColumns ==> Slot(row, c).Some? then
      var r := ApplyUpdate(BlankEvent(id), row);
      assert r.Some? ==> IsDate(r.value.dataInizio) by {
        if r.Some? {
          assert DataInizio in RequiredColumns;
          assert Slot(row, DataInizio).Some?;
        }
      }
      r
    else None
  }

  // ---------------------------------------------------------------------
  // Queries
  // ---------------------------------------------------------------------

  /** A single-row query: the row when exactly one matches, null otherwise. */
  function Single<T>(rows: seq<T>): Option<T>
  {
    if |rows| == 1 then Some(rows[0]) else None
  }

  function EventsWithId(events: seq<Event>, id: Id): seq<Event>
  {
    Filter(events, (e: Event) => e.id == id)
  }

  /** select from events where id = … .single() */
  function EventById(events: seq<Event>, id: Id): Option<Event>
  {
    Single(EventsWithId(events, id))
  }

  function SavedRows(saved: seq<SavedEvent>, userId: Id, eventId: Id): seq<SavedEvent>
  {
    Filter(saved, (s: SavedEvent) => s.userId == userId && s.eventId == eventId)
  }

  function ReviewRows(reviews: seq<Review>, userId: Id, eventId: Id): seq<Review>
  {
    Filter(reviews, (r: Review) => r.userId == userId && r.eventId == eventId)
  }

  // ---------------------------------------------------------------------
  // Table invariants
  // ---------------------------------------------------------------------

  predicate UniqueEventIds(events: seq<Event>)
  {
    forall i, j :: 0 <= i < j < |events| ==> events[i].id != events[j].id
  }

  predicate IdFree(events: seq<Event>, id: Id)
  {
    forall i :: 0 <= i < |events| ==> events[i].id != id
  }

  /** What the events table guarantees: primary keys and parseable start dates. */
  predicate EventsValid(events: seq<Event>)
  {
    UniqueEventIds(events) && forall i :: 0 <= i < |events| ==> IsDate(events[i].dataInizio)
  }

  predicate SavedIdFree(saved: seq<SavedEvent>, id: Id)
  {
    forall i :: 0 <= i < |saved| ==> saved[i].id != id
  }

  /** Primary keys, and at most one row per (user, event) pair. */
  predicate SavedValid(saved: seq<SavedEvent>)
  {
    && (forall i, j :: 0 <= i < j < |saved| ==> saved[i].id != saved[j].id)
    && (forall i, j :: 0 <= i < j < |saved| ==>
          saved[i].userId != saved[j].userId || saved[i].eventId != saved[j].eventId)
  }

  predicate ReviewIdFree(reviews: seq<Review>, id: Id)
  {
    forall i :: 0 <= i < |reviews| ==> reviews[i].id != id
  }

  predicate IdentityFree(identities: seq<Identity>, id: Id)
  {
    forall i :: 0 <= i < |identities| ==> identities[i].id != id
  }

  predicate EmailFree(identities: seq<Identity>, email: string)
  {
    forall i :: 0 <= i < |identities| ==> identities[i].email != email
  }

  /** A lookup by primary key in a table whose keys are unique finds the row. */
  lemma {:induction false} EventByIdFinds(events: seq<Event>, i: nat)
    requires UniqueEventIds(events) && i < |events|
    ensures EventById(events, events[i].id) == Some(events[i])
  {
    EventsWithIdUnique(events, events[i].id, i);
  }

  lemma {:induction false} EventsWithIdUnique(events: seq<Event>, id: Id, i: nat)
    requires UniqueEventIds(events) && i < |events| && events[i].id == id
    ensures EventsWithId(events, id) == [events[i]]
    decreases |events|
  {
    var p := (e: Event) => e.id == id;
    assert events == [events[0]] + events[1..];
    if i == 0 {
      EventsWithIdAbsent(events[1..], id);
    } else {
      EventsWithIdUnique(events[1..], id, i - 1);
    }
  }

  lemma {:induction false} EventsWithIdAbsent(events: seq<Event>, id: Id)
    requires IdFree(events, id)
    ensures EventsWithId(events, id) == []
    decreases |events|
  {
    if events != [] {
      EventsWithIdAbsent(events[1..], id);
    }
  }

  /** A lookup for a key no row has finds nothing. */
  lemma EventByIdMissing(events: seq<Event>, id: Id)
    requires IdFree(events, id)
    ensures EventById(events, id) == None
  {
    EventsWithIdAbsent(events, id);
  }

  /** The backend: the provider's identities and session, the tables and the image bucket. */
  class Database {
    /** The identity the request's cookies authenticate, as auth.getUser() answers it. */
    var session: Option<Id>
    var identities: seq<Identity>
    var users: map<Id, User>
    var events: seq<Event>
    var reviews: seq<Review>
    var savedEvents: seq<SavedEvent>
    var notifications: seq<Notification>
    /** Object keys in the event-images bucket. */
    var images: set<string>

    constructor ()
      ensures session == None && identities == [] && users == map[] && events == []
      ensures reviews == [] && savedEvents == [] && notifications == [] && images == {}
    {
      session := None;
      identities := [];
      users := map[];
      events := [];
      reviews := [];
      savedEvents := [];
      notifications := [];
      images := {};
    }
  }
}
