/** The user-management screen in the browser: the rows it lists, the avatar
    initials and colour, the search box, the "(You)" marker, and the list
    after adding and deleting users. The API's answers are parameters. */
module UserManagement {
  import opened Common
  import opened Text
  import opened Seqs

  /** A user as the list receives it. Ids are strings in the browser; the
      member listing and a created user carry `id`, the admin listing
      carries the stored `_id` (here `docId`). */
  datatype ListedUser = ListedUser(id: Option<string>, docId: Option<string>, name: Option<string>,
                                   email: Option<string>, role: Option<string>)

  /** `user.id || user._id`: the key a row is rendered and deleted by. */
  function Key(u: ListedUser): (k: Option<string>)
    ensures Truthy(u.id) ==> k == u.id
    ensures !Truthy(u.id) ==> k == u.docId
  {
    if Truthy(u.id) then u.id else u.docId
  }

  // ---------------------------------------------------------------------
  // Avatar initials

  /** The first character of every non-empty word; an empty word (from a
      doubled, leading or trailing space) contributes nothing. */
  function FirstChars(words: seq<string>): (r: string)
    ensures |r| <= |words|
  {
    if words == [] then []
    else (if words[0] != [] then [words[0][0]] else []) + FirstChars(words[1..])
  }

  /** Every collected character starts one of the words. */
  lemma {:induction false} FirstCharsFromWords(words: seq<string>)
    ensures forall k :: 0 <= k < |FirstChars(words)| ==> exists w :: w in words && w != [] && FirstChars(words)[k] == w[0]
  {
    if words != [] {
      FirstCharsFromWords(words[1..]);
      var head: string := if words[0] != [] then [words[0][0]] else [];
      var rest := FirstChars(words[1..]);
      var r := FirstChars(words);
      assert r == head + rest;
      forall k | 0 <= k < |r| ensures exists w :: w in words && w != [] && r[k] == w[0] {
        if k < |head| {
          assert words[0] in words && r[k] == words[0][0];
        } else {
          assert r[k] == rest[k - |head|];
          var w :| w in words[1..] && w != [] && rest[k - |head|] == w[0];
          assert w in words;
        }
      }
      assert forall k :: 0 <= k < |r| ==> exists w :: w in words && w != [] && r[k] == w[0];
    } else {
      assert FirstChars(words) == [];
    }
  }

  /** The first two characters, or fewer when there are fewer (`slice(0, 2)`). */
  function TakeTwo(s: string): (r: string)
    ensures |r| <= 2 && |r| <= |s| && r == s[..|r|]
    ensures |s| >= 2 ==> |r| == 2
    ensures |s| < 2 ==> r == s
  {
    if |s| < 2 then s else s[..2]
  }

  /** `getInitials`: split on single spaces, first characters, upper-cased,
      at most two. */
  function Initials(name: string): (r: string)
    ensures |r| <= 2
  {
    TakeTwo(Upper(FirstChars(Split(name, ' '))))
  }

  /** Each initial is the upper-cased first character of a word of the name. */
  lemma InitialsComeFromWords(name: string)
    ensures forall k :: 0 <= k < |Initials(name)| ==>
              exists w :: w in Split(name, ' ') && w != [] && Initials(name)[k] == UpperChar(w[0])
  {
    var parts := Split(name, ' ');
    var firsts := FirstChars(parts);
    var up := Upper(firsts);
    var init := Initials(name);
    assert init == TakeTwo(up);
    FirstCharsFromWords(parts);
    forall k | 0 <= k < |init| ensures exists w :: w in parts && w != [] && init[k] == UpperChar(w[0]) {
      assert init[k] == up[k] == UpperChar(firsts[k]);
      var w :| w in parts && w != [] && firsts[k] == w[0];
    }
    assert forall k :: 0 <= k < |init| ==> exists w :: w in parts && w != [] && init[k] == UpperChar(w[0]);
  }

  /** A name written as words separated by single spaces gets the initials
      of its first two words. */
  lemma InitialsOfWords(words: seq<string>)
    requires |words| >= 1
    requires forall k :: 0 <= k < |words| ==> words[k] != [] && ' ' !in words[k]
    ensures |words| == 1 ==> Initials(Join(words, ' ')) == [UpperChar(words[0][0])]
    ensures |words| >= 2 ==> Initials(Join(words, ' ')) == [UpperChar(words[0][0]), UpperChar(words[1][0])]
  {
    SplitJoin(words, ' ');
    InitialsOfParts(Join(words, ' '), words);
  }

  lemma InitialsOfParts(name: string, words: seq<string>)
    requires Split(name, ' ') == words
    requires forall k :: 0 <= k < |words| ==> words[k] != []
    ensures |words| == 1 ==> Initials(name) == [UpperChar(words[0][0])]
    ensures |words| >= 2 ==> Initials(name) == [UpperChar(words[0][0]), UpperChar(words[1][0])]
  {
    FirstCharsOfWords(words);
    var up := Upper(FirstChars(words));
    assert Initials(name) == TakeTwo(up);
    assert up[0] == UpperChar(words[0][0]);
    if |words| >= 2 {
      assert up[1] == UpperChar(words[1][0]);
    }
  }

  lemma {:induction false} FirstCharsOfWords(words: seq<string>)
    requires forall k :: 0 <= k < |words| ==> words[k] != []
    ensures |FirstChars(words)| == |words|
    ensures forall k :: 0 <= k < |words| ==> FirstChars(words)[k] == words[k][0]
  {
    if words != [] {
      FirstCharsOfWords(words[1..]);
    }
  }

  // ---------------------------------------------------------------------
  // Avatar colour

  const Palette: seq<string> := ["#3b82f6", "#8b5cf6", "#ec4899", "#f59e0b",
                                 "#10b981", "#ef4444", "#6366f1", "#14b8a6"]

  /** `charCodeAt(0)` of a string starting with `c`: the UTF-16 code unit,
      which is the high surrogate for a character beyond the Basic
      Multilingual Plane. */
  function FirstCodeUnit(c: char): (u: nat)
    ensures u < 0x10000
    ensures c as int < 0x10000 ==> u == c as int
    ensures c as int >= 0x10000 ==> 0xD800 <= u < 0xDC00
    ensures c as int >= 0x10000 ==>
              (u - 0xD800) * 0x400 <= c as int - 0x10000 < (u - 0xD800 + 1) * 0x400
  {
    if c as int < 0x10000 then c as int else 0xD800 + (c as int - 0x10000) / 0x400
  }

  /** The palette entry the first code unit selects; an empty name has no
      code unit and indexes nothing. */
  function AvatarColor(name: string): (r: Option<string>)
    ensures r.Some? <==> name != ""
    ensures r.Some? ==> r.value in Palette
  {
    if name == "" then None else Some(Palette[FirstCodeUnit(name[0]) % |Palette|])
  }

  /** Names starting with the same character get the same colour, and a
      Basic Multilingual Plane character picks its code modulo 8. */
  lemma ColourOfFirstChar(a: string, b: string)
    requires a != "" && b != "" && a[0] == b[0] && a[0] as int < 0x10000
    ensures AvatarColor(a) == AvatarColor(b) == Some(Palette[a[0] as int % 8])
  {
  }

  /** Beyond the Basic Multilingual Plane the colour depends only on the high
      surrogate, so 1024 consecutive characters share one colour. */
  lemma {:induction false} SurrogateColour(a: string, b: string)
    requires a != "" && b != "" && a[0] as int >= 0x10000 && b[0] as int >= 0x10000
    requires (a[0] as int - 0x10000) / 0x400 == (b[0] as int - 0x10000) / 0x400
    ensures AvatarColor(a) == AvatarColor(b)
    ensures AvatarColor(a) == Some(Palette[((a[0] as int - 0x10000) / 0x400) % 8])
  {
    var h := (a[0] as int - 0x10000) / 0x400;
    assert (0xD800 + h) % 8 == h % 8 by {
      assert 0xD800 == 8 * 0x1B00;
    }
  }

  // ---------------------------------------------------------------------
  // Search, and the "(You)" marker

  /** The search box: a row stays when the lower-cased query occurs in its
      lower-cased name or email (a missing one reads as empty). */
  function FilterUsers(users: seq<ListedUser>, query: string): (r: seq<ListedUser>)
    ensures forall u :: u in r <==> u in users && (Occurs(Lower(query), Lower(Or(u.name, "")))
                                                  || Occurs(Lower(query), Lower(Or(u.email, ""))))
  {
    Filter(users, (u: ListedUser) => Includes(Lower(Or(u.name, "")), Lower(query))
                                     || Includes(Lower(Or(u.email, "")), Lower(query)))
  }

  /** An empty search box lists everyone, in order. */
  lemma EmptySearchListsAll(users: seq<ListedUser>)
    ensures FilterUsers(users, "") == users
  {
    forall u: ListedUser { IncludesEmpty(Lower(Or(u.name, ""))); }
    FilterAll(users, (u: ListedUser) => Includes(Lower(Or(u.name, "")), Lower(""))
                                        || Includes(Lower(Or(u.email, "")), Lower("")));
  }

  /** `currentUser?.id || currentUser?._id`: no caller gives undefined. */
  function CallerKey(current: Option<ListedUser>): (k: Option<string>)
    ensures current.None? ==> k.None?
    ensures current.Some? && Truthy(current.value.id) ==> k == current.value.id
    ensures current.Some? && !Truthy(current.value.id) ==> k == current.value.docId
  {
    if current.None? then None else Key(current.value)
  }

  /** A row is the caller's when its key equals the caller's key, where two
      missing keys are equal too. */
  function IsCurrentUser(u: ListedUser, current: Option<ListedUser>): (r: bool)
    ensures current.Some? && Truthy(u.id) && Truthy(current.value.id) ==> (r <==> u.id == current.value.id)
    ensures current.Some? && !Truthy(u.id) && !Truthy(current.value.id) ==> (r <==> u.docId == current.value.docId)
    ensures current.Some? && !Truthy(u.id) && Truthy(current.value.id) ==> (r <==> u.docId == current.value.id)
    ensures current.Some? && Truthy(u.id) && !Truthy(current.value.id) ==> (r <==> u.id == current.value.docId)
    ensures current.None? ==> (r <==> !Truthy(u.id) && u.docId.None?)
  {
    Key(u) == CallerKey(current)
  }

  // ---------------------------------------------------------------------
  // The list after delete: as written, and as intended

  /** The row filter applied after a delete, as written: a row stays unless
      both its `id` and its `_id` equal the deleted key. */
  function KeptAsWritten(u: ListedUser, userId: Option<string>): (r: bool)
    ensures userId.Some? && (u.id.None? || u.docId.None?) ==> r
  {
    u.id != userId || u.docId != userId
  }

  function RemoveAsWritten(users: seq<ListedUser>, userId: Option<string>): (r: seq<ListedUser>)
    ensures forall u :: u in r <==> u in users && !(u.id == userId && u.docId == userId)
  {
    Filter(users, (u: ListedUser) => KeptAsWritten(u, userId))
  }

  /** No row the API sends carries both ids, so the filter as written never
      drops the deleted row: the list stays exactly as it was. */
  lemma {:induction false} RemoveAsWrittenKeepsAll(users: seq<ListedUser>, userId: Option<string>)
    requires userId.Some?
    requires forall k :: 0 <= k < |users| ==> users[k].id.None? || users[k].docId.None?
    ensures RemoveAsWritten(users, userId) == users
  {
    FilterAll(users, (u: ListedUser) => KeptAsWritten(u, userId));
  }

  /** The admin listing's row for `_id` "42", deleted by its key "42", is
      still listed after the filter as written. */
  lemma DeletedRowStillListed(name: Option<string>, email: Option<string>)
    ensures var u := ListedUser(None, Some("42"), name, email, None);
            Key(u) == Some("42") && RemoveAsWritten([u], Key(u)) == [u]
  {
    var u := ListedUser(None, Some("42"), name, email, None);
    RemoveAsWrittenKeepsAll([u], Key(u));
  }

  /** The intended update: drop exactly the rows whose key is the deleted key. */
  function RemoveByKey(users: seq<ListedUser>, userId: Option<string>): (r: seq<ListedUser>)
    ensures forall u :: u in r <==> u in users && Key(u) != userId
    ensures |r| <= |users|
  {
    Filter(users, (u: ListedUser) => Key(u) != userId)
  }

  /** Deleting a row's key removes that row, whichever id field carries it,
      and keeps every row with another key in its place. */
  lemma RemoveByKeyAppendRow(before: seq<ListedUser>, row: ListedUser, after: seq<ListedUser>, userId: Option<string>)
    requires Key(row) == userId
    requires forall k :: 0 <= k < |before| ==> Key(before[k]) != userId
    requires forall k :: 0 <= k < |after| ==> Key(after[k]) != userId
    ensures RemoveByKey(before + [row] + after, userId) == before + after
  {
    FilterDropOne(before, row, after, (u: ListedUser) => Key(u) != userId);
  }

  // ---------------------------------------------------------------------
  // The screen's state

  /** The add form. */
  datatype UserForm = UserForm(name: string, email: string, password: string, role: string)

  const BlankUserForm := UserForm("", "", "", "user")

  /** The API's answer to a call: success with its value (the created user
      for a create, nothing for a delete), an error status with the body's
      `error` field, or a failure before any answer, with its message. */
  datatype Answer<T> = Done(value: T) | Refused(error: Option<string>) | Unreachable(message: string)

  const AddFailed := "Failed to create user"
  const DeleteFailed := "Failed to delete user"

  /** The error a failed call leaves on the screen. */
  function FailureText<T>(a: Answer<T>, fallback: string): string
    requires !a.Done?
  {
    if a.Refused? then Or(a.error, fallback) else a.message
  }

  class UserManager {
    var users: seq<ListedUser>
    var form: UserForm
    var adding: bool          // the add dialog is open
    var openMenu: Option<string>
    var error: Option<string>

    constructor ()
      ensures users == [] && form == BlankUserForm && !adding && openMenu == None && error == None
    {
      users, form, adding, openMenu, error := [], BlankUserForm, false, None, None;
    }

    /** Submitting the add form: a created user is appended, the dialog
        closes and the form is reset to a blank user with role "user"; a
        failure keeps the list, the form and the dialog and shows the error. */
    method AddUser(answer: Answer<ListedUser>)
      modifies this
      ensures answer.Done? ==>
                users == old(users) + [answer.value] && form == BlankUserForm && !adding && error == None
      ensures !answer.Done? ==>
                users == old(users) && form == old(form) && adding == old(adding)
                && error == Some(FailureText(answer, AddFailed))
      ensures openMenu == old(openMenu)
    {
      error := None;
      if answer.Done? {
        users := users + [answer.value];
        adding := false;
        form := BlankUserForm;
      } else {
        error := Some(FailureText(answer, AddFailed));
      }
    }

    /** Deleting the row keyed `userId` after the confirmation dialog:
        declined, nothing happens; refused, the error is shown; done, the
        rows keyed `userId` are dropped with the intended filter
        (`RemoveByKey`, not `RemoveAsWritten`) and the menu closes. */
    method DeleteUser(userId: Option<string>, confirmed: bool, answer: Answer<()>)
      modifies this
      ensures !confirmed ==> users == old(users) && openMenu == old(openMenu) && error == old(error)
      ensures confirmed && answer.Done? ==>
                users == RemoveByKey(old(users), userId) && openMenu == None && error == old(error)
      ensures confirmed && !answer.Done? ==>
                users == old(users) && openMenu == old(openMenu) && error == Some(FailureText(answer, DeleteFailed))
      ensures form == old(form) && adding == old(adding)
    {
      if !confirmed {
        return;
      }
      if answer.Done? {
        users := RemoveByKey(users, userId);
        openMenu := None;
      } else {
        error := Some(FailureText(answer, DeleteFailed));
      }
    }
  }
}
