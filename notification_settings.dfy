// The notification preferences form of the profile page: two switches, the
// preferred categories toggled one at a time, and the save that writes the
// three columns of the user's row.

module NotificationSettings {

  import opened Optional
  import opened Types
  import opened Seqs
  import opened Db

  /** toggleCategory: drop the category when listed, otherwise append it. */
  function Toggle(list: seq<Category>, c: Category): (r: seq<Category>)
    ensures c in r <==> c !in list
    ensures forall d :: d != c ==> (d in r <==> d in list)
  {
    FilterMembers(list, (x: Category) => x != c);
    if c in list then Filter(list, (x: Category) => x != c) else list + [c]
  }

  /** Toggling keeps the list free of duplicates and the other categories in their order. */
  lemma ToggleKeepsOthers(list: seq<Category>, c: Category)
    requires NoDuplicates(list)
    ensures NoDuplicates(Toggle(list, c))
    ensures Filter(Toggle(list, c), (x: Category) => x != c) == Filter(list, (x: Category) => x != c)
  {
    var p := (x: Category) => x != c;
    if c in list {
      FilterIdempotent(list, p);
      FilterNoDuplicates(list, p);
    } else {
      FilterConcat(list, [c], p);
      assert Filter([c], p) == [];
    }
  }

  lemma {:induction false} FilterNoDuplicates(list: seq<Category>, p: Category -> bool)
    requires NoDuplicates(list)
    ensures NoDuplicates(Filter(list, p))
    decreases |list|
  {
    if list != [] {
      FilterNoDuplicates(list[1..], p);
      assert list == [list[0]] + list[1..];
      FilterConcat([list[0]], list[1..], p);
      assert list[0] !in list[1..];
      FilterMembers(list[1..], p);
    }
  }

  /** Toggling twice gives back the same categories. */
  lemma ToggleTwiceSameCategories(list: seq<Category>, c: Category)
    ensures forall d :: d in Toggle(Toggle(list, c), c) <==> d in list
  {
  }

  /** Toggling an absent category twice gives back the very same list. */
  lemma ToggleTwiceAbsent(list: seq<Category>, c: Category)
    requires c !in list
    ensures Toggle(Toggle(list, c), c) == list
  {
    var p := (x: Category) => x != c;
    assert Toggle(list, c) == list + [c];
    FilterConcat(list, [c], p);
    assert Filter([c], p) == [];
    FilterAll(list, p);
  }

  /** Toggling the last listed category twice gives back the very same list. */
  lemma ToggleTwiceLast(list: seq<Category>, c: Category)
    requires NoDuplicates(list) && |list| > 0 && list[|list| - 1] == c
    ensures Toggle(Toggle(list, c), c) == list
  {
    var p := (x: Category) => x != c;
    var front := list[..|list| - 1];
    assert list == front + [c];
    assert c !in front;
    FilterConcat(front, [c], p);
    assert Filter([c], p) == [];
    FilterAll(front, p);
    assert Toggle(list, c) == front;
  }

  /** Removing a category that is not last and adding it back moves it to the end. */
  lemma ToggleTwiceReorders()
    ensures Toggle(Toggle([Sport, Arte], Sport), Sport) == [Arte, Sport]
  {
    var p := (x: Category) => x != Sport;
    assert Filter([Arte], p) == [Arte];
    assert Filter([Sport, Arte], p) == Filter([Arte], p);
    assert Toggle([Sport, Arte], Sport) == [Arte];
  }

  datatype Message = Success(text: string) | Error(text: string)

  const SavedText := "Impostazioni salvate!"
  const SaveErrorText := "Errore durante il salvataggio"

  /** The profile row after the save: the two flags and the categories, nothing else. */
  function SavedProfile(u: User, email: bool, app: bool, categories: seq<Category>): (r: User)
    ensures r.emailNotifications == email && r.appNotifications == app && r.preferredCategories == Some(categories)
    ensures r.(emailNotifications := u.emailNotifications, appNotifications := u.appNotifications,
               preferredCategories := u.preferredCategories) == u
  {
    u.(emailNotifications := email, appNotifications := app, preferredCategories := Some(categories))
  }

  /** The form's state, initialised from the profile row. */
  class SettingsForm {
    const profileId: Id
    var emailNotifications: bool
    var appNotifications: bool
    var preferredCategories: seq<Category>
    var message: Option<Message>

    constructor (profile: User)
      ensures profileId == profile.id
      ensures emailNotifications == profile.emailNotifications && appNotifications == profile.appNotifications
      ensures preferredCategories == (if profile.preferredCategories.Some? then profile.preferredCategories.value else [])
      ensures message.None?
    {
      profileId := profile.id;
      emailNotifications := profile.emailNotifications;
      appNotifications := profile.appNotifications;
      preferredCategories := if profile.preferredCategories.Some? then profile.preferredCategories.value else [];
      message := None;
    }

    method ToggleCategory(c: Category)
      modifies this
      ensures preferredCategories == Toggle(old(preferredCategories), c)
      ensures emailNotifications == old(emailNotifications) && appNotifications == old(appNotifications)
      ensures message == old(message)
    {
      preferredCategories := Toggle(preferredCategories, c);
    }

    method SetEmailNotifications(checked: bool)
      modifies this
      ensures emailNotifications == checked
      ensures appNotifications == old(appNotifications) && preferredCategories == old(preferredCategories)
      ensures message == old(message)
    {
      emailNotifications := checked;
    }

    method SetAppNotifications(checked: bool)
      modifies this
      ensures appNotifications == checked
      ensures emailNotifications == old(emailNotifications) && preferredCategories == old(preferredCategories)
      ensures message == old(message)
    {
      appNotifications := checked;
    }

    /** The hint "Nessuna categoria selezionata" is shown. */
    predicate ShowsNoCategoryHint()
      reads this
    {
      |preferredCategories| == 0
    }

    /**
     * handleSave: an update of the caller's profile row by id. A missing row is updated
     * by no one and is not an error; a store error leaves the row and shows
     * the error message.
     */
    method HandleSave(db: Database, storeFails: bool)
      modifies this`message, db`users
      ensures storeFails ==> db.users == old(db.users) && message == Some(Error(SaveErrorText))
      ensures !storeFails && profileId in old(db.users) ==>
                db.users == old(db.users)[profileId := SavedProfile(old(db.users)[profileId], emailNotifications, appNotifications, preferredCategories)]
      ensures !storeFails && profileId !in old(db.users) ==> db.users == old(db.users)
      ensures !storeFails ==> message == Some(Success(SavedText))
    {
      message := None;
      if storeFails {
        message := Some(Error(SaveErrorText));
        return;
      }
      if profileId in db.users {
        db.users := db.users[profileId := SavedProfile(db.users[profileId], emailNotifications, appNotifications, preferredCategories)];
      }
      message := Some(Success(SavedText));
    }
  }
}
