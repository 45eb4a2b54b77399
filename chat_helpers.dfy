/**
 * The pure helpers of the chat page: message truncation for the
 * conversation list, avatar initials and colour, the username search and
 * the removal of the current user from the user list.
 */
module ChatHelpers {
  import opened Wrappers
  import opened Seqs
  import opened JsText
  import opened ChatStore

  // ---------------------------------------------------------------------
  // truncateMessage

  /** `truncateMessage(message, maxLength = 30)`. */
  function TruncateMessage(message: string, maxLength: nat := 30): (r: string)
    ensures |r| <= maxLength + 3
    ensures |message| <= maxLength ==> r == message
    ensures |message| > maxLength ==>
              |r| == maxLength + 3 && r[..maxLength] == message[..maxLength] && r[maxLength..] == "..."
  {
    if |message| > maxLength then message[..maxLength] + "..." else message
  }

  /** A truncated message is left as it is by a second truncation to the same length. */
  lemma TruncateMessageIdempotent(message: string, maxLength: nat)
    ensures TruncateMessage(TruncateMessage(message, maxLength), maxLength) == TruncateMessage(message, maxLength)
  {
    var r := TruncateMessage(message, maxLength);
    if |message| > maxLength {
      assert r[..maxLength] + "..." == r;
    }
  }

  // ---------------------------------------------------------------------
  // generateAvatar

  const AvatarColors: seq<string> :=
    ["#FF6B6B", "#4ECDC4", "#45B7D1", "#96CEB4", "#FFEAA7", "#DDA0DD", "#98D8C8"]

  /** `color` is `colors[NaN]`, that is `undefined`, for an empty username. */
  datatype Avatar = Avatar(initials: string, color: Option<string>)

  /**
   * `words.map(n => n[0]).join('')`: the first character of every word; an
   * empty word gives `undefined`, which `join` writes as nothing.
   */
  function WordInitials(words: seq<string>): string {
    if words == [] then []
    else (if words[0] == [] then [] else [words[0][0]]) + WordInitials(words[1..])
  }

  /**
   * An independent account of the same characters: every non-space
   * character of `s` that stands at the start of `s` or right after a
   * space (`atStart` says whether the previous character was a space).
   */
  function WordStarts(s: string, atStart: bool): (r: string)
    ensures forall c :: c in r ==> c in s && c != ' '
  {
    if s == [] then []
    else if s[0] == ' ' then WordStarts(s[1..], true)
    else (if atStart then [s[0]] else []) + WordStarts(s[1..], false)
  }

  /** The characters split-then-pick collects are exactly the word starts of the username. */
  lemma {:induction false} WordInitialsAreWordStarts(s: string)
    ensures WordInitials(Split(s, ' ')) == WordStarts(s, true)
    ensures WordInitials(Split(s, ' ')[1..]) == WordStarts(s, false)
  {
    if s != [] {
      var rest := Split(s[1..], ' ');
      WordInitialsAreWordStarts(s[1..]);
      if s[0] == ' ' {
        assert Split(s, ' ') == [[]] + rest;
        assert Split(s, ' ')[1..] == rest;
      } else {
        var words := [[s[0]] + rest[0]] + rest[1..];
        assert Split(s, ' ') == words;
        assert words[1..] == rest[1..];
        assert WordInitials(words) == [s[0]] + WordInitials(rest[1..]);
      }
    }
  }

  /** `initials`: the upper-cased word initials, cut to two characters by `slice(0, 2)`. */
  function Initials(username: string): (r: string)
    ensures |r| <= 2
  {
    var all := ToUpperCase(WordInitials(Split(username, ' ')));
    if |all| <= 2 then all else all[..2]
  }

  /** `username.charCodeAt(0) % colors.length`; `NaN` (here `None`) for an empty username. */
  function ColorIndex(username: string): (r: Option<nat>)
    ensures r.Some? <==> username != []
    ensures r.Some? ==> r.value < |AvatarColors|
  {
    if username == [] then None else Some(FirstCodeUnit(username) % |AvatarColors|)
  }

  /** `generateAvatar(username)`. */
  function GenerateAvatar(username: string): (a: Avatar)
    ensures |a.initials| <= 2
    ensures a.color.Some? <==> username != []
    ensures a.color.Some? ==> a.color.value in AvatarColors
  {
    var initials := Initials(username);
    match ColorIndex(username)
    case None => Avatar(initials, None)
    case Some(k) => Avatar(initials, Some(AvatarColors[k]))
  }

  /**
   * The initials are the first two word starts of the username, in order,
   * upper-cased.
   */
  lemma AvatarInitialsAreWordStarts(username: string)
    ensures var starts := ToUpperCase(WordStarts(username, true));
            GenerateAvatar(username).initials == if |starts| <= 2 then starts else starts[..2]
  {
    WordInitialsAreWordStarts(username);
  }

  /** A name's colour depends only on its first character. */
  lemma AvatarColorByFirstCharacter(a: string, b: string)
    requires a != [] && b != [] && a[0] == b[0]
    ensures GenerateAvatar(a).color == GenerateAvatar(b).color
  {
    assert FirstCodeUnit(a) == FirstCodeUnit(b);
    assert ColorIndex(a) == ColorIndex(b);
  }

  // ---------------------------------------------------------------------
  // The search filter and the user list

  /** `username.toLowerCase().includes(searchQuery.toLowerCase())`. */
  predicate MatchesQuery(username: string, query: string) {
    Includes(ToLowerCase(username), ToLowerCase(query))
  }

  /** The search box's filter over conversations or users, by their username. */
  function SearchFilter<T(!new)>(items: seq<T>, username: T -> string, query: string): seq<T> {
    Filter(items, (x: T) => MatchesQuery(username(x), query))
  }

  /** The search keeps exactly the entries whose lower-cased username contains the lower-cased query. */
  lemma SearchFilterMembers<T(!new)>(items: seq<T>, username: T -> string, query: string, x: T)
    ensures x in SearchFilter(items, username, query) <==> x in items && MatchesQuery(username(x), query)
  {
  }

  /** The search keeps the entries in their original order. */
  lemma SearchFilterKeepsOrder<T(!new)>(a: seq<T>, b: seq<T>, username: T -> string, query: string)
    ensures SearchFilter(a + b, username, query) == SearchFilter(a, username, query) + SearchFilter(b, username, query)
  {
    FilterConcat(a, b, (x: T) => MatchesQuery(username(x), query));
  }

  /** An empty search keeps everything. */
  lemma SearchFilterEmptyQuery<T(!new)>(items: seq<T>, username: T -> string)
    ensures SearchFilter(items, username, "") == items
  {
    forall i | 0 <= i < |items| ensures MatchesQuery(username(items[i]), "") {
      assert ToLowerCase(username(items[i]))[..0] == [];
    }
    FilterKeepsAll(items, (x: T) => MatchesQuery(username(x), ""));
  }

  /** `fetchAllUsers`'s `res.data.filter((u) => u._id !== user._id)`. */
  function OtherUsers(users: seq<User>, me: ObjectId): (r: seq<User>)
    ensures forall u :: u in r <==> u in users && u.id != me
  {
    Filter(users, (u: User) => u.id != me)
  }

  /** The user list never shows the current user, and keeps the others in order. */
  lemma OtherUsersExcludesSelf(a: seq<User>, b: seq<User>, me: ObjectId)
    ensures forall i :: 0 <= i < |OtherUsers(a, me)| ==> OtherUsers(a, me)[i].id != me
    ensures OtherUsers(a + b, me) == OtherUsers(a, me) + OtherUsers(b, me)
  {
    var r := OtherUsers(a, me);
    forall i | 0 <= i < |r| ensures r[i].id != me {
      assert r[i] in r;
    }
    FilterConcat(a, b, (u: User) => u.id != me);
  }
}
