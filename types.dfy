// Record shapes and enumerations of the events platform's database
// (users, events, reviews, saved_events, notifications) and the
// computed EventWithStats view that the pages hand to the client.

module Types {

  import opened Optional
  import opened Seqs

  /** Row identifiers are opaque strings (UUIDs issued by the store or the auth provider). */
  type Id = string

  datatype Role = Admin | Comunale | Cittadino

  datatype Category = Sport | Cultura | Sociale | Musica | Arte | Educazione | Famiglia | Altro

  /** The type of a notification row. */
  datatype NotificationKind = NuovoEvento | Promemoria | Sistema

  /** The enum values in the order the settings panel and the event form list them. */
  const AllCategories: seq<Category> := [Sport, Cultura, Sociale, Musica, Arte, Educazione, Famiglia, Altro]

  const AllRoles: seq<Role> := [Admin, Comunale, Cittadino]

  const AllNotificationKinds: seq<NotificationKind> := [NuovoEvento, Promemoria, Sistema]

  /** The text a category is stored and transmitted as. */
  function CategoryName(c: Category): string
  {
    match c
    case Sport => "sport"
    case Cultura => "cultura"
    case Sociale => "sociale"
    case Musica => "musica"
    case Arte => "arte"
    case Educazione => "educazione"
    case Famiglia => "famiglia"
    case Altro => "altro"
  }

  /** The enum column's check: which texts name a category. */
  function ParseCategory(s: string): (r: Option<Category>)
    ensures r.Some? ==> CategoryName(r.value) == s
  {
    if s == "sport" then Some(Sport)
    else if s == "cultura" then Some(Cultura)
    else if s == "sociale" then Some(Sociale)
    else if s == "musica" then Some(Musica)
    else if s == "arte" then Some(Arte)
    else if s == "educazione" then Some(Educazione)
    else if s == "famiglia" then Some(Famiglia)
    else if s == "altro" then Some(Altro)
    else None
  }

  lemma CategoryNameRoundTrip(c: Category)
    ensures ParseCategory(CategoryName(c)) == Some(c)
  {
  }

  lemma CategoryNameInjective(c: Category, d: Category)
    ensures CategoryName(c) == CategoryName(d) <==> c == d
  {
    CategoryNameRoundTrip(c);
    CategoryNameRoundTrip(d);
  }

  /** Each of the 8 categories is listed exactly once. */
  lemma AllCategoriesExact()
    ensures |AllCategories| == 8 && NoDuplicates(AllCategories)
    ensures forall c: Category :: c in AllCategories
  {
    forall c: Category ensures c in AllCategories {
      match c
      case Sport => assert AllCategories[0] == c;
      case Cultura => assert AllCategories[1] == c;
      case Sociale => assert AllCategories[2] == c;
      case Musica => assert AllCategories[3] == c;
      case Arte => assert AllCategories[4] == c;
      case Educazione => assert AllCategories[5] == c;
      case Famiglia => assert AllCategories[6] == c;
      case Altro => assert AllCategories[7] == c;
    }
  }

  lemma AllRolesExact()
    ensures |AllRoles| == 3 && NoDuplicates(AllRoles)
    ensures forall r: Role :: r in AllRoles
  {
    forall r: Role ensures r in AllRoles {
      match r
      case Admin => assert AllRoles[0] == r;
      case Comunale => assert AllRoles[1] == r;
      case Cittadino => assert AllRoles[2] == r;
    }
  }

  lemma AllNotificationKindsExact()
    ensures |AllNotificationKinds| == 3 && NoDuplicates(AllNotificationKinds)
    ensures forall k: NotificationKind :: k in AllNotificationKinds
  {
    forall k: NotificationKind ensures k in AllNotificationKinds {
      match k
      case NuovoEvento => assert AllNotificationKinds[0] == k;
      case Promemoria => assert AllNotificationKinds[1] == k;
      case Sistema => assert AllNotificationKinds[2] == k;
    }
  }

  /** A user profile row (timestamps left out). preferredCategories is None when the column reads null. */
  datatype User = User(
    id: Id,
    email: string,
    nome: string,
    cognome: string,
    role: Role,
    isActive: bool,
    emailNotifications: bool,
    appNotifications: bool,
    preferredCategories: Option<seq<Category>>)

  /**
   * An event row. Date columns keep their 'YYYY-MM-DD' text and time columns their 'HH:MM[:SS]' text;
   * the cost is kept as the decimal text it was parsed from, independent of isGratuito.
   */
  datatype Event = Event(
    id: Id,
    titolo: string,
    descrizione: string,
    dataInizio: string,
    oraInizio: string,
    dataFine: Option<string>,
    oraFine: Option<string>,
    luogo: string,
    categoria: Category,
    associazione: string,
    creatoDa: Id,
    immagineUrl: Option<string>,
    costo: Option<string>,
    isGratuito: bool,
    linkEsterni: Option<string>,
    contatti: Option<string>,
    viewsCount: nat,
    isDraft: bool)

  datatype Review = Review(id: Id, eventId: Id, userId: Id, rating: int, commento: Option<string>)

  datatype SavedEvent = SavedEvent(id: Id, userId: Id, eventId: Id)

  datatype Notification = Notification(
    id: Id,
    userId: Id,
    titolo: string,
    messaggio: string,
    tipo: NotificationKind,
    eventId: Option<Id>,
    isRead: bool)

  /** The creator's name as joined from the users table. */
  datatype Creator = Creator(nome: string, cognome: string)

  /** An event with the statistics the pages compute for it. */
  datatype EventWithStats = EventWithStats(
    event: Event,
    avgRating: Option<real>,
    reviewsCount: nat,
    savesCount: nat,
    creator: Option<Creator>)

  function EventIds(es: seq<EventWithStats>): (r: seq<Id>)
    ensures |r| == |es| && forall i :: 0 <= i < |es| ==> r[i] == es[i].event.id
  {
    if es == [] then [] else [es[0].event.id] + EventIds(es[1..])
  }

  predicate IsStaff(r: Role)
  {
    r == Comunale || r == Admin
  }

  /** The role column of the caller's profile, or None when there is no profile row. */
  function RoleOf(users: map<Id, User>, id: Id): Option<Role>
  {
    if id in users then Some(users[id].role) else None
  }
}
