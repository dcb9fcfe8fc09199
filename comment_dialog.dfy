/**
 * The state of the comment dialog and its event handlers: typing with
 * `@mention` tracking, picking a user from the mention dropdown, submitting
 * and closing. Requests the dialog would send are returned as values.
 */
module CommentDialog {
  import opened Wrappers
  import opened Sequences
  import opened JsStrings

  type Id = string

  /** An entry of the user list: `{ _id, first_name, last_name }`. */
  datatype UserEntry = UserEntry(id: Id, firstName: string, lastName: string)

  /** The body of `POST /commentsOfPhoto/:photo_id`. */
  datatype CommentPost = CommentPost(photoId: Id, comment: string)
  /** The body of `POST /photosOfUser/mentions`, sent once the comment is accepted. */
  datatype MentionsPost = MentionsPost(photoId: Id, userIds: seq<Id>)

  function FullName(u: UserEntry): string {
    u.firstName + " " + u.lastName
  }

  /** The text typed so far ends with the mention trigger. */
  predicate EndsWithAt(value: string) {
    |value| > 0 && value[|value| - 1] == '@'
  }

  /** Case-insensitive substring match of the mention text against a user's full name. */
  predicate NameMatches(u: UserEntry, mentionText: string) {
    Includes(Lower(FullName(u)), Lower(mentionText))
  }

  /** The dropdown contents: the matching users, in user-list order. */
  function MatchingUsers(users: seq<UserEntry>, mentionText: string): (r: seq<UserEntry>)
    ensures IsSubsequence(r, users)
    ensures forall i :: 0 <= i < |r| ==> r[i] in users && NameMatches(r[i], mentionText)
    ensures forall i :: 0 <= i < |users| && NameMatches(users[i], mentionText) ==> users[i] in r
    ensures multiset(r) <= multiset(users)
    ensures forall i :: 0 <= i < |users| && NameMatches(users[i], mentionText) ==>
              multiset(r)[users[i]] == multiset(users)[users[i]]
  {
    var matches := (u: UserEntry) => NameMatches(u, mentionText);
    FilterIsSubsequence(users, matches);
    FilterMultiset(users, matches);
    Filter(users, matches)
  }

  /** Some listed user with this id has `@first last` in the text. */
  predicate StillMentioned(users: seq<UserEntry>, text: string, id: Id) {
    exists k :: 0 <= k < |users| && users[k].id == id && Includes(text, "@" + FullName(users[k]))
  }

  /** The mentioned ids kept after an edit: those still written out in the text, in their old order. */
  function PrunedMentions(users: seq<UserEntry>, text: string, ids: seq<Id>): (r: seq<Id>)
    ensures IsSubsequence(r, ids)
    ensures forall i :: 0 <= i < |r| ==> r[i] in ids && StillMentioned(users, text, r[i])
    ensures forall i :: 0 <= i < |ids| && StillMentioned(users, text, ids[i]) ==> ids[i] in r
    ensures NoDup(ids) ==> NoDup(r)
  {
    var kept := (id: Id) => StillMentioned(users, text, id);
    FilterIsSubsequence(ids, kept);
    if NoDup(ids) then FilterNoDup(ids, kept); Filter(ids, kept) else Filter(ids, kept)
  }

  /** JavaScript's numeric reading of `mentionStart`: `null` is 0. */
  function StartNumber(mentionStart: Option<nat>): int {
    if mentionStart.Some? then mentionStart.value else 0
  }

  /**
   * The text after picking `u`: `comment.slice(0, mentionStart - 1) + "@" +
   * fullName + " " + comment.slice(mentionStart)`.
   */
  function SpliceMention(comment: string, mentionStart: Option<nat>, u: UserEntry): (r: string)
    ensures mentionStart.Some? && 1 <= mentionStart.value <= |comment| ==>
              r == comment[..mentionStart.value - 1] + "@" + FullName(u) + " " + comment[mentionStart.value..]
    ensures mentionStart.Some? && mentionStart.value > |comment| ==> r == comment + "@" + FullName(u) + " "
    ensures mentionStart.None? && comment != "" ==> r == comment[..|comment| - 1] + "@" + FullName(u) + " " + comment
    ensures mentionStart.None? && comment == "" ==> r == "@" + FullName(u) + " "
  {
    var start := StartNumber(mentionStart);
    Slice(comment, 0, start - 1) + "@" + FullName(u) + " " + SliceFrom(comment, start)
  }

  /** The text after picking a user writes out `@first last` of that user, so pruning against that text keeps their id. */
  lemma SelectedUserStaysMentioned(users: seq<UserEntry>, comment: string, mentionStart: Option<nat>, u: UserEntry)
    requires u in users
    ensures StillMentioned(users, SpliceMention(comment, mentionStart, u), u.id)
  {
    var start := StartNumber(mentionStart);
    var pre, name, post := Slice(comment, 0, start - 1), "@" + FullName(u), " " + SliceFrom(comment, start);
    assert SpliceMention(comment, mentionStart, u) == pre + name + post;
    IncludesMiddle(pre, name, post);
    var k :| 0 <= k < |users| && users[k] == u;
  }

  class Dialog {
    /** The `photo_id` prop. */
    const photoId: Id
    var open: bool
    var comment: string
    var error: bool
    var users: seq<UserEntry>
    var filteredUsers: seq<UserEntry>
    var mentionStart: Option<nat>
    var showDropdown: bool
    var mentionedUsersIdArr: seq<Id>

    /** The dropdown is only shown while a mention is being typed; mentions are listed once. */
    ghost predicate Valid()
      reads this
    {
      && NoDup(mentionedUsersIdArr)
      && (showDropdown ==> mentionStart.Some?)
      && (mentionStart.Some? ==> mentionStart.value >= 1)
    }

    constructor (photoId: Id)
      ensures Valid() && this.photoId == photoId
      ensures !open && comment == "" && !error && users == [] && filteredUsers == []
      ensures mentionStart == None && !showDropdown && mentionedUsersIdArr == []
    {
      this.photoId := photoId;
      open, comment, error := false, "", false;
      users, filteredUsers := [], [];
      mentionStart, showDropdown, mentionedUsersIdArr := None, false, [];
    }

    /** The state update made when the user list arrives. */
    method ReceiveUsers(list: seq<UserEntry>)
      requires Valid()
      modifies this`users
      ensures Valid()
      ensures users == list
    {
      users := list;
    }

    /** `handleClickOpen`. */
    method Open()
      requires Valid()
      modifies this`open
      ensures Valid()
      ensures open
    {
      open := true;
    }

    /** `handleClickClose`. */
    method Close()
      requires Valid()
      modifies this`open, this`comment, this`showDropdown, this`mentionedUsersIdArr
      ensures Valid()
      ensures !open && comment == "" && !showDropdown && mentionedUsersIdArr == []
    {
      open, comment, showDropdown, mentionedUsersIdArr := false, "", false, [];
    }

    /** `handleCommentChange` with the field's new text `value`. */
    method ChangeComment(value: string)
      requires Valid()
      modifies this`comment, this`mentionStart, this`showDropdown, this`filteredUsers, this`mentionedUsersIdArr
      ensures Valid()
      ensures comment == value
      ensures mentionedUsersIdArr == PrunedMentions(users, value, old(mentionedUsersIdArr))
      ensures EndsWithAt(value) ==> mentionStart == Some(|value|) && showDropdown && filteredUsers == users
      ensures !EndsWithAt(value) && old(mentionStart).Some? ==>
                && mentionStart == old(mentionStart)
                && filteredUsers == MatchingUsers(users, SliceFrom(value, old(mentionStart).value))
                && (showDropdown <==> filteredUsers != [])
      ensures !EndsWithAt(value) && old(mentionStart).None? ==>
                mentionStart == None && !showDropdown && filteredUsers == old(filteredUsers)
    {
      if EndsWithAt(value) {
        mentionStart, showDropdown, filteredUsers := Some(|value|), true, users;
      } else if mentionStart.Some? {
        var mentionText := SliceFrom(value, mentionStart.value);
        filteredUsers := MatchingUsers(users, mentionText);
        showDropdown := |filteredUsers| > 0;
      }
      mentionedUsersIdArr := PrunedMentions(users, value, mentionedUsersIdArr);
      comment := value;
    }

    /** `handleMentionSelect(u)`. */
    method SelectMention(u: UserEntry)
      requires Valid()
      modifies this`comment, this`mentionStart, this`showDropdown, this`mentionedUsersIdArr
      ensures Valid()
      ensures comment == SpliceMention(old(comment), old(mentionStart), u)
      ensures mentionStart == None && !showDropdown
      ensures mentionedUsersIdArr == if u.id in old(mentionedUsersIdArr) then old(mentionedUsersIdArr)
                                     else old(mentionedUsersIdArr) + [u.id]
      ensures u.id in mentionedUsersIdArr
    {
      comment := SpliceMention(comment, mentionStart, u);
      if u.id !in mentionedUsersIdArr {
        mentionedUsersIdArr := mentionedUsersIdArr + [u.id];
      }
      mentionStart, showDropdown := None, false;
    }

    /**
     * `handleCommentSubmit`: the comment request it issues, and the mentions
     * request that follows once the comment has been accepted.
     */
    method Submit() returns (commentPost: Option<CommentPost>, mentionsPost: Option<MentionsPost>)
      requires Valid()
      modifies this`error, this`open, this`comment, this`mentionedUsersIdArr
      ensures Valid()
      ensures IsBlank(old(comment)) ==>
                && error && commentPost == None && mentionsPost == None
                && open == old(open) && comment == old(comment) && mentionedUsersIdArr == old(mentionedUsersIdArr)
      ensures !IsBlank(old(comment)) ==>
                && !open && comment == "" && mentionedUsersIdArr == [] && error == old(error)
                && commentPost == Some(CommentPost(photoId, old(comment)))
                && mentionsPost == if old(mentionedUsersIdArr) == [] then None
                                   else Some(MentionsPost(photoId, old(mentionedUsersIdArr)))
      ensures mentionsPost.Some? ==> NoDup(mentionsPost.value.userIds)
    {
      TrimEmptyIffBlank(comment);
      if Trim(comment) == "" {
        error := true;
        return None, None;
      }
      var text, ids := comment, mentionedUsersIdArr;
      open, comment, mentionedUsersIdArr := false, "", [];
      commentPost := Some(CommentPost(photoId, text));
      mentionsPost := if |ids| > 0 then Some(MentionsPost(photoId, ids)) else None;
    }
  }
}
