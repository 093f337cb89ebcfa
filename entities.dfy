/**
 * Who a message is from and to, how chats are looked up and named, and the
 * display-name cache that the text export fills as it resolves senders and
 * recipients.
 */
module Entities {
  import opened Wrappers
  import opened Text
  import opened Json

  // ---------------------------------------------------------------------------
  // Sender and recipient of a message dict
  // ---------------------------------------------------------------------------

  /**
   * `_get_sender_id`: the first truthy of `from_id`, `sender_id`, `peer_id`;
   * of a dict its first truthy `user_id`, `channel_id`, `chat_id` (or the dict
   * itself); then `int()` of that, `None` when `int()` refuses it.
   */
  function SenderId(msg: Value): Option<int>
    requires msg.Obj?
  {
    var sender := Or(Or(Field(msg, "from_id"), Field(msg, "sender_id")), Field(msg, "peer_id"));
    var id := if sender.Obj? then Or(Or(Or(Field(sender, "user_id"), Field(sender, "channel_id")), Field(sender, "chat_id")), sender) else sender;
    PyInt(id)
  }

  /** A sender peer dict names its user or channel id, whichever is set first; a zero `user_id` names nothing. */
  lemma SenderIdOfPeer(msg: Value, n: int)
    requires msg.Obj?
    ensures Field(msg, "from_id") == Obj([("user_id", Int(n))]) && n != 0 ==> SenderId(msg) == Some(n)
    ensures Field(msg, "from_id") == Obj([("_", Str("PeerChannel")), ("channel_id", Int(n))]) && n != 0 ==> SenderId(msg) == Some(n)
    ensures Field(msg, "from_id") == Obj([("user_id", Int(0))]) ==> SenderId(msg).None?
  {
    var from := Field(msg, "from_id");
    if from == Obj([("user_id", Int(n))]) {
      assert Field(from, "user_id") == Int(n);
      assert Field(from, "channel_id") == Null && Field(from, "chat_id") == Null;
    } else if from == Obj([("_", Str("PeerChannel")), ("channel_id", Int(n))]) {
      assert Field(from, "user_id") == Null && Field(from, "chat_id") == Null;
      assert Field(from, "channel_id") == Int(n);
    } else if from == Obj([("user_id", Int(0))]) {
      assert Field(from, "user_id") == Int(0);
      assert Field(from, "channel_id") == Null && Field(from, "chat_id") == Null;
    }
  }

  /** Without `from_id` the sender is `sender_id`, and without that the `peer_id`, a digit string converted by `int()`. */
  lemma SenderIdFallsBack(msg: Value, n: int)
    requires msg.Obj? && !Truthy(Field(msg, "from_id"))
    ensures Field(msg, "sender_id") == Int(n) && n != 0 ==> SenderId(msg) == Some(n)
    ensures !Truthy(Field(msg, "sender_id")) && Field(msg, "peer_id") == Str(IntToString(n)) ==> SenderId(msg) == Some(n)
  {
    if !Truthy(Field(msg, "sender_id")) && Field(msg, "peer_id") == Str(IntToString(n)) {
      ParseIntToString(n);
    }
  }

  /**
   * `_get_recipient_id`: for a user peer (`peer_id`, else `to_id`, a dict with
   * `user_id`) it is this account's own id when that is known and the sender
   * is someone else, otherwise the peer's `user_id` as stored; for channel and
   * chat peers it is their id as an integer. `Null` is `None`.
   */
  function RecipientId(msg: Value, selfId: Option<int>): Value
    requires msg.Obj?
  {
    var peer := Or(Field(msg, "peer_id"), Field(msg, "to_id"));
    var senderId := SenderId(msg);
    if peer.Obj? && "user_id" in Keys(peer.fields) then
      if selfId.Some? && selfId.value != 0 && senderId != selfId then Int(selfId.value) else Field(peer, "user_id")
    else
      var p := if peer.Obj? then Or(Or(Field(peer, "channel_id"), Field(peer, "chat_id")), peer) else peer;
      match PyInt(p) case Some(n) => Int(n) case None => Null
  }

  /** In a private chat the other side is this account when someone else wrote, else the peer user; a channel peer names the channel. */
  lemma RecipientIdCases(msg: Value, selfId: int, sender: int, other: int, channel: int)
    requires msg.Obj? && selfId != 0 && other != 0 && channel != 0 && sender != 0
    requires Field(msg, "from_id") == Int(sender)
    ensures Field(msg, "peer_id") == Obj([("user_id", Int(other))]) ==>
      RecipientId(msg, Some(selfId)) == (if sender != selfId then Int(selfId) else Int(other))
      && RecipientId(msg, None) == Int(other)
    ensures Field(msg, "peer_id") == Obj([("channel_id", Int(channel))]) ==> RecipientId(msg, Some(selfId)) == Int(channel)
  {
  }

  // ---------------------------------------------------------------------------
  // Looking entities up
  // ---------------------------------------------------------------------------

  /** An attribute of an entity: missing, present with `None`, or present with a string. */
  datatype Attr = Missing | NoneValue | Present(s: string)

  /** The kinds of entity Telegram returns. */
  datatype Kind = UserKind | ChatKind | ChannelKind(broadcast: bool) | OtherKind

  datatype Entity = Entity(kind: Kind, id: int, title: Attr, username: Attr, firstName: Attr, lastName: Attr)

  /** One way `get_entity` asks the client for an entity. */
  datatype Lookup =
    | AsChannel(id: int)        // PeerChannel(id)
    | AsChat(id: int)           // PeerChat(id)
    | AsUser(id: int)           // PeerUser(id)
    | InDialogs(id: int)        // an open dialog whose entity has this id
    | ByIdentifier(v: Value)    // the identifier as given
    | Reconnected(v: Value)     // the identifier as given, on a fresh connection

  /** `str(identifier).lstrip("-").isdigit()` for an `int` or `str` identifier. */
  predicate LooksNumeric(identifier: Value)
  {
    (identifier.Int? || identifier.Str?) && IsDigits(LStrip(PyStr(identifier).value, {'-'}))
  }

  /**
   * The lookups `get_entity` makes, in order, until one yields an entity. A
   * numeric identifier is tried as channel, basic group and user, then
   * searched among the dialogs and tried once more as a channel by its
   * absolute value; an identifier whose `int()` fails after the numeric test
   * (`"--5"`) or any other identifier is looked up as given, and again on a
   * fresh connection when that fails.
   */
  function Lookups(identifier: Value): seq<Lookup>
  {
    if !LooksNumeric(identifier) then [ByIdentifier(identifier), Reconnected(identifier)]
    else
      match PyInt(identifier)
      case Some(n) => NumericTries(n)
      case None => [Reconnected(identifier)]
  }

  /** The integer an identifier that passes the numeric test converts to; `None` for any other identifier. */
  function NumericId(identifier: Value): Option<int>
  {
    if LooksNumeric(identifier) then PyInt(identifier) else None
  }

  /** The lookups for a numeric identifier `n`. */
  function NumericTries(n: int): seq<Lookup>
  {
    var a := if n < 0 then -n else n;
    [AsChannel(n), AsChat(n), AsUser(n), InDialogs(a), AsChannel(a)]
  }

  /** The position of the first lookup that yields an entity; `None` when all of them fail. */
  function FirstFound(lookups: seq<Lookup>, resolve: Lookup -> Option<Entity>): (r: Option<nat>)
    ensures r.None? <==> forall i :: 0 <= i < |lookups| ==> resolve(lookups[i]).None?
    ensures r.Some? ==> r.value < |lookups| && resolve(lookups[r.value]).Some?
    ensures r.Some? ==> forall j :: 0 <= j < r.value ==> resolve(lookups[j]).None?
  {
    if lookups == [] then None
    else if resolve(lookups[0]).Some? then Some(0)
    else
      match FirstFound(lookups[1..], resolve)
      case None => None
      case Some(i) => Some(i + 1)
  }

  /** `get_entity`, with the client's answers given by `resolve`: the entity of the first lookup that finds one. */
  function GetEntity(identifier: Value, resolve: Lookup -> Option<Entity>): Option<Entity>
  {
    var lookups := Lookups(identifier);
    match FirstFound(lookups, resolve)
    case None => None
    case Some(i) => resolve(lookups[i])
  }

  /** The text of an integer without its sign is its digits. */
  lemma UnsignedDigits(n: int)
    ensures var d := NatToString(if n < 0 then -n else n); IsDigits(d) && LStrip(IntToString(n), {'-'}) == d
  {
    var d := NatToString(if n < 0 then -n else n);
    assert d[0] != '-';
    assert LStrip(d, {'-'}) == d;
    if n < 0 {
      var s := IntToString(n);
      assert s == "-" + d && s[0] == '-' && s[1..] == d;
    }
  }

  /** Five lookups, the first three as channel, basic group and user `n`. */
  predicate ChannelChatUserFirst(l: seq<Lookup>, n: int)
  {
    |l| == 5 && l[0] == AsChannel(n) && l[1] == AsChat(n) && l[2] == AsUser(n)
  }

  /** The lookups of an identifier that passes the numeric test and converts to `n`. */
  lemma NumericLookups(identifier: Value, n: int)
    requires NumericId(identifier) == Some(n)
    ensures ChannelChatUserFirst(Lookups(identifier), n)
  {
    assert LooksNumeric(identifier) && PyInt(identifier) == Some(n);
  }

  /** An identifier that passes the numeric test but that `int()` rejects is looked up only on a fresh connection. */
  lemma UnconvertibleReconnectsOnly(identifier: Value)
    requires LooksNumeric(identifier) && PyInt(identifier) == None
    ensures Lookups(identifier) == [Reconnected(identifier)]
  {
  }

  /**
   * `"--5"` passes the numeric test but `int()` rejects it; the error is
   * caught by the outer handler, so (by the lemma above) the only lookup is
   * the one on a fresh connection.
   */
  lemma DoubleMinusLooksNumeric(s: string)
    requires s == "--5"
    ensures LooksNumeric(Str(s))
  {
    var p, t := s[..2], s[2..];
    assert s == p + t;
    assert p[0] == '-' && p[1] == '-' && t[0] == '5';
    DigitsAfterMinuses(p, t);
  }

  /** Digits after a run of minus signs pass the numeric test. */
  lemma DigitsAfterMinuses(p: string, t: string)
    requires forall i :: 0 <= i < |p| ==> p[i] == '-'
    requires IsDigits(t)
    ensures LooksNumeric(Str(p + t))
  {
    LStripPrefix(p, t, {'-'});
  }

  lemma DoubleMinusIsNoInt(s: string)
    requires s == "--5"
    ensures PyInt(Str(s)) == None
  {
    StripOfUnspaced(s);
    assert s[1..][0] == '-';
    assert !IsDigitGroups(s[1..]);
  }

  /** The text of an integer passes the numeric test and converts back to it. */
  lemma TextIsNumeric(n: int)
    ensures NumericId(Str(IntToString(n))) == Some(n)
  {
    var s := IntToString(n);
    assert LooksNumeric(Str(s)) by {
      UnsignedDigits(n);
    }
    ParseIntToString(n);
  }

  /** An integer passes the numeric test. */
  lemma IntegerIsNumeric(n: int)
    ensures NumericId(Int(n)) == Some(n)
  {
    assert LooksNumeric(Int(n)) by {
      UnsignedDigits(n);
      assert PyStr(Int(n)).value == IntToString(n);
    }
  }

  /** A numeric identifier, as a string with or without a sign, is tried first as a channel, then as a basic group, then as a user. */
  lemma NumericTriedInOrder(n: int)
    ensures ChannelChatUserFirst(Lookups(Str(IntToString(n))), n)
  {
    TextIsNumeric(n);
    NumericLookups(Str(IntToString(n)), n);
  }

  /** The same order for an integer identifier. */
  lemma IntegerTriedInOrder(n: int)
    ensures ChannelChatUserFirst(Lookups(Int(n)), n)
  {
    IntegerIsNumeric(n);
    NumericLookups(Int(n), n);
  }

  /** A username is looked up as given, and again on a fresh connection. */
  lemma NamesLookedUpDirectly(name: string)
    requires name != [] && name[0] == '@'
    ensures Lookups(Str(name)) == [ByIdentifier(Str(name)), Reconnected(Str(name))]
  {
    assert LStrip(name, {'-'}) == name;
  }

  // ---------------------------------------------------------------------------
  // Names
  // ---------------------------------------------------------------------------

  /** A character `re.sub(r"[^\w\-_.]", "_", ...)` keeps (with `\w` taken as ASCII). */
  predicate IsSafeChar(c: char) { IsWordChar(c) || c == '-' || c == '.' }

  /** `re.sub(r"[^\w\-_.]", "_", s)`: every other character becomes `_`. */
  function Sanitize(s: string): (r: string)
    ensures |r| == |s|
    ensures forall i :: 0 <= i < |s| ==> r[i] == if IsSafeChar(s[i]) then s[i] else '_'
  {
    seq(|s|, i requires 0 <= i < |s| => if IsSafeChar(s[i]) then s[i] else '_')
  }

  /** `safe_name or "chat_history"`. */
  function OrDefault(safe: string): (r: string)
    ensures r != ""
  {
    if safe == "" then "chat_history" else safe
  }

  /** The name is safe for a file name: only word characters, `-` and `.`, and never empty. */
  predicate IsSafeName(s: string)
  {
    s != "" && forall i :: 0 <= i < |s| ==> IsSafeChar(s[i])
  }

  lemma OrDefaultSafe(s: string)
    ensures IsSafeName(OrDefault(Sanitize(s)))
  {
    var d := "chat_history";
    assert forall i :: 0 <= i < |d| ==> IsSafeChar(d[i]);
  }

  /** The value of `getattr(entity, name, "")` when it is kept by `filter(None, ...)`. */
  function KeptText(a: Attr): seq<string>
  {
    if a.Present? && a.s != "" then [a.s] else []
  }

  /** `" ".join(filter(None, [first_name, last_name]))`. */
  function JoinedName(e: Entity): string
  {
    Join(KeptText(e.firstName) + KeptText(e.lastName), " ")
  }

  /**
   * The name of an entity before sanitising: its title when it has the
   * attribute, else a non-empty username, else the joined first and last
   * names, else the id. `None` is a title of `None`, on which `.strip()` raises.
   */
  function RawName(e: Entity): Option<string>
  {
    if !e.title.Missing? then (if e.title.Present? then Some(e.title.s) else None)
    else if e.username.Present? && e.username.s != "" then Some(e.username.s)
    else if !e.firstName.Missing? || !e.lastName.Missing? then Some(JoinedName(e))
    else Some(IntToString(e.id))
  }

  /** `chat.split("?")[0].rstrip("/").split("/")[-1]`: the last path segment before any query. */
  function LastSegment(chat: string): string
  {
    var segments := Split(RStrip(Split(chat, '?')[0], {'/'}), '/');
    segments[|segments| - 1]
  }

  /** The last segment of `<head>/<segment>/?<query>`. */
  lemma LastSegmentOf(head: string, segment: string, query: string)
    requires '?' !in head && '?' !in segment && '/' !in segment && segment != []
    ensures LastSegment(head + "/" + segment + "/?" + query) == segment
  {
    var body := head + "/" + segment;
    var link := body + "/";
    assert Split(head + "/" + segment + "/?" + query, '?')[0] == link by {
      assert head + "/" + segment + "/?" + query == link + ['?'] + query;
      assert '?' !in link by {
        assert link == head + ['/'] + segment + ['/'];
      }
      SplitAfter(link, '?', query);
    }
    assert RStrip(link, {'/'}) == body by {
      assert link[..|link| - 1] == body;
      assert body[|body| - 1] == segment[|segment| - 1];
    }
    assert var p := Split(body, '/'); p[|p| - 1] == segment by {
      assert body == head + ['/'] + segment;
      SplitLastPiece(head, '/', segment);
    }
  }

  /**
   * The name `get_entity_name` derives from the identifier alone when naming
   * the entity raised: without a leading `@`; for a URL, the last path
   * segment before any query, with a `+` invite prefix spelled `invite_`.
   * `None` is the `AttributeError` for an identifier that is not a string.
   */
  function FallbackName(identifier: Value): Option<string>
  {
    if !identifier.Str? then None
    else
      var chat := identifier.s;
      var c :=
        if StartsWith(chat, "@") then chat[1..]
        else if Contains(chat, "//") then
          var last := LastSegment(chat);
          if StartsWith(last, "+") then "invite_" + last[1..] else last
        else chat;
      Some(OrDefault(Sanitize(c)))
  }

  /** What `get_entity_name` returns: a name, or Python's `None` for an entity that could not be found. */
  datatype NameResult = Named(name: string) | NotFound

  /**
   * `get_entity_name`: `"chat_history"` for an empty identifier, `None` when
   * the entity is not found, else the entity's name stripped and sanitised
   * (`"chat_history"` if nothing is left). When naming the entity raises, the
   * name comes from the identifier; `None` is an exception that escapes.
   */
  function EntityName(identifier: Value, entity: Option<Entity>): Option<NameResult>
  {
    if !Truthy(identifier) then Some(Named("chat_history"))
    else if entity.None? then Some(NotFound)
    else
      match RawName(entity.value)
      case Some(name) => Some(Named(OrDefault(Sanitize(Strip(name)))))
      case None =>
        match FallbackName(identifier)
        case Some(n) => Some(Named(n))
        case None => None
  }

  /** Every name `get_entity_name` gives is a safe, non-empty file name. */
  lemma EntityNameIsSafe(identifier: Value, entity: Option<Entity>)
    requires EntityName(identifier, entity).Some? && EntityName(identifier, entity).value.Named?
    ensures IsSafeName(EntityName(identifier, entity).value.name)
  {
    var d := "chat_history";
    assert forall i :: 0 <= i < |d| ==> IsSafeChar(d[i]);
    if Truthy(identifier) && entity.Some? {
      match RawName(entity.value)
      case Some(name) => OrDefaultSafe(Strip(name));
      case None => OrDefaultSafe(if identifier.Str? then identifier.s else "");
    }
  }

  /** A character of a name that is already safe is kept. */
  lemma SanitizeSafe(s: string)
    requires forall i :: 0 <= i < |s| ==> IsSafeChar(s[i])
    ensures Sanitize(s) == s
  {
  }

  /** Spaces in a title become underscores: `"Test Chat"` is named `"Test_Chat"`. */
  lemma TitleWithSpace(a: string, b: string, e: Entity)
    requires a != [] && b != [] && IsSafeName(a) && IsSafeName(b)
    requires e.title == Present(a + " " + b)
    ensures EntityName(Str("@chat"), Some(e)) == Some(Named(a + "_" + b))
  {
    var t := a + " " + b;
    assert !IsSpace(t[0]) && !IsSpace(t[|t| - 1]) by {
      assert t[0] == a[0] && IsSafeChar(a[0]);
      assert t[|t| - 1] == b[|b| - 1] && IsSafeChar(b[|b| - 1]);
    }
    StripOfUnspaced(t);
    SanitizeSpaced(a, b);
    NamedByTitle(Str("@chat"), e);
  }

  lemma NamedByTitle(identifier: Value, e: Entity)
    requires Truthy(identifier) && e.title.Present?
    ensures EntityName(identifier, Some(e)) == Some(Named(OrDefault(Sanitize(Strip(e.title.s)))))
  {
  }

  lemma SanitizeSpaced(a: string, b: string)
    requires forall i :: 0 <= i < |a| ==> IsSafeChar(a[i])
    requires forall i :: 0 <= i < |b| ==> IsSafeChar(b[i])
    ensures Sanitize(a + " " + b) == a + "_" + b
  {
    var t := a + " " + b;
    var u := a + "_" + b;
    forall i | 0 <= i < |t|
      ensures Sanitize(t)[i] == u[i]
    {
      if i < |a| {
        assert t[i] == a[i] == u[i];
      } else if i == |a| {
        assert t[i] == ' ' && u[i] == '_';
      } else {
        assert t[i] == b[i - |a| - 1] == u[i];
      }
    }
  }

  /** The concrete case of the test: an entity titled `"Test Chat"`. */
  lemma TestChatTitle(e: Entity)
    requires e.title == Present("Test Chat")
    ensures EntityName(Str("@chat"), Some(e)) == Some(Named("Test_Chat"))
  {
    TestChatPieces();
    TitleWithSpace("Test", "Chat", e);
  }

  lemma TestChatPieces()
    ensures IsSafeName("Test") && IsSafeName("Chat")
    ensures "Test" + " " + "Chat" == "Test Chat" && "Test" + "_" + "Chat" == "Test_Chat"
  {
    var a, b := "Test", "Chat";
    assert IsAsciiLetter(a[0]) && IsAsciiLetter(a[1]) && IsAsciiLetter(a[2]) && IsAsciiLetter(a[3]);
    assert IsAsciiLetter(b[0]) && IsAsciiLetter(b[1]) && IsAsciiLetter(b[2]) && IsAsciiLetter(b[3]);
  }

  /** The fallback drops the `@` of a username. */
  lemma FallbackOfUsername(name: string)
    requires IsSafeName(name)
    ensures FallbackName(Str("@" + name)) == Some(name)
  {
    assert StartsWith("@" + name, "@");
    assert ("@" + name)[1..] == name;
    SanitizeSafe(name);
  }

  /** The fallback for a link whose last segment is `+` and a code. */
  lemma FallbackOfPlusSegment(chat: string, code: string)
    requires !StartsWith(chat, "@") && Contains(chat, "//")
    requires LastSegment(chat) == "+" + code
    ensures FallbackName(Str(chat)) == Some(OrDefault(Sanitize("invite_" + code)))
  {
    var last := "+" + code;
    assert StartsWith(last, "+") && last[1..] == code;
  }

  /** An invite code of safe characters makes a safe name as it is. */
  lemma InviteNameSafe(code: string)
    requires IsSafeName(code)
    ensures OrDefault(Sanitize("invite_" + code)) == "invite_" + code
  {
    var n := "invite_" + code;
    assert forall i :: 7 <= i < |n| ==> n[i] == code[i - 7];
    SanitizeSafe(n);
  }

  /** A link whose first part holds `//` and does not start with `@` is taken for a URL. */
  lemma LinkIsUrl(chat: string, head: string)
    requires head != [] && head[0] != '@' && Contains(head, "//")
    requires |head| <= |chat| && chat[..|head|] == head
    ensures !StartsWith(chat, "@") && Contains(chat, "//")
  {
    assert chat[..1][0] == head[0];
    ContainsInPrefix(head, chat[|head|..], "//");
    assert head + chat[|head|..] == chat;
  }

  /** `+` and a safe code hold neither `/` nor `?`. */
  lemma PlusCodeSegment(code: string)
    requires IsSafeName(code)
    ensures '/' !in "+" + code && '?' !in "+" + code
  {
    var last := "+" + code;
    assert forall i :: 1 <= i < |last| ==> last[i] == code[i - 1];
  }

  /** For an invite link the fallback is `invite_` and the code after `+`, without query or trailing slash. */
  lemma FallbackOfInviteLink(head: string, code: string, query: string)
    requires Contains(head, "//") && head != [] && head[0] != '@' && '?' !in head
    requires IsSafeName(code)
    ensures FallbackName(Str(head + "/" + ("+" + code) + "/?" + query)) == Some("invite_" + code)
  {
    var last := "+" + code;
    var chat := head + "/" + last + "/?" + query;
    assert chat[..|head|] == head;
    LinkIsUrl(chat, head);
    PlusCodeSegment(code);
    LastSegmentOf(head, last, query);
    FallbackOfPlusSegment(chat, code);
    InviteNameSafe(code);
  }

  // ---------------------------------------------------------------------------
  // Full names and the display-name cache
  // ---------------------------------------------------------------------------

  /**
   * `get_entity_full_name` for a `str` or `int` identifier: `"Unknown"` when it
   * is empty, the identifier as text when no entity is found, else the title,
   * the joined first and last names (the identifier when they are blank), a
   * non-empty username, or the identifier. `None` is a title of `None`, which
   * is returned as it is.
   */
  function FullName(identifier: Value, entity: Option<Entity>): (r: Option<string>)
    requires identifier.Str? || identifier.Int?
    ensures r.None? <==> Truthy(identifier) && entity.Some? && entity.value.title.NoneValue?
    ensures r.Some? && (entity.None? || entity.value.title.Missing?) ==> r.value != ""
    ensures !Truthy(identifier) ==> r == Some("Unknown")
    ensures Truthy(identifier) && entity.Some? && entity.value.title.Present? ==> r == Some(entity.value.title.s)
  {
    var id := PyStr(identifier).value;
    if !Truthy(identifier) then Some("Unknown")
    else if entity.None? then Some(id)
    else
      var e := entity.value;
      if !e.title.Missing? then (if e.title.Present? then Some(e.title.s) else None)
      else if !e.firstName.Missing? || !e.lastName.Missing? then
        var name := Strip(JoinedName(e));
        Some(if name != "" then name else id)
      else if e.username.Present? && e.username.s != "" then Some(e.username.s)
      else Some(id)
  }

  /**
   * The two namings rank a user's attributes differently: for a user with a
   * username and a first name, the file name comes from the username and the
   * full name from the first name.
   */
  lemma UsernameRankedDifferently(identifier: Value, e: Entity, first: string)
    requires identifier.Str? && identifier.s != ""
    requires e.title.Missing? && e.username.Present? && IsSafeName(e.username.s)
    requires e.firstName == Present(first) && e.lastName.Missing? && first != "" && Strip(first) == first
    ensures EntityName(identifier, Some(e)) == Some(Named(e.username.s))
    ensures FullName(identifier, Some(e)) == Some(first)
  {
    var u := e.username.s;
    StripOfUnspaced(u);
    SanitizeSafe(u);
    assert JoinedName(e) == first;
  }

  /**
   * `fetch_user_name`: the user's first and last names joined and stripped,
   * else the username, else `idText`, the id as `str()` shows it. `user` is
   * the client's answer for `PeerUser(user_id)`; `None` stands for the
   * exception that also yields the id.
   */
  function FetchUserName(idText: string, user: Option<Entity>): (r: string)
    ensures idText != "" ==> r != ""
    ensures user.None? ==> r == idText
    ensures user.Some? && Strip(JoinedName(user.value)) != "" ==> r == Strip(JoinedName(user.value))
  {
    if user.None? then idText
    else
      var e := user.value;
      var name := Strip(JoinedName(e));
      if name != "" then name
      else if e.username.Present? && e.username.s != "" then e.username.s
      else idText
  }

  /** `entity.title or str(peer_id)` for a basic group or channel; `None` when it has no `title` attribute and reading it raises. */
  function ChatTitle(idText: string, e: Entity): (r: Option<string>)
    ensures r.Some? && idText != "" ==> r.value != ""
    ensures r.None? <==> e.title.Missing?
  {
    match e.title
    case Missing => None
    case NoneValue => Some(idText)
    case Present(t) => Some(if t != "" then t else idText)
  }

  /**
   * A name map as the configuration holds it: a dict from ids to names,
   * keyed here by the id's `HashKey`, so that `42`, `42.0` and `True` find
   * the entries of `42` and `1` as in Python.
   */
  type NameMap = map<Value, string>

  /** One `_save_config` call: the name maps as they were written to the configuration file. */
  datatype Snapshot = Snapshot(users: NameMap, chats: NameMap)

  /** Every entry of `a` is in `b` with the same value. */
  predicate SubMap(a: NameMap, b: NameMap)
  {
    forall k :: k in a ==> k in b && b[k] == a[k]
  }

  /** A key that was missing, once added, keeps every earlier part of the map a part of it. */
  lemma SubMapExtend(a: NameMap, b: NameMap, key: Value, v: string)
    requires SubMap(a, b) && key !in b
    ensures SubMap(a, b[key := v])
  {
  }

  /** `(n + 1) // 100` counts one more multiple of 100 exactly when `n + 1` is one. */
  lemma NextHundred(n: nat)
    ensures (n + 1) / 100 == n / 100 + (if (n + 1) % 100 == 0 then 1 else 0)
  {
  }

  /**
   * The downloader's display-name state: `config["users_map"]` and
   * `config["chats_map"]`, the two fetch counters, and what each
   * `_save_config` call wrote. The configuration is written each time a
   * counter reaches a multiple of 100, and once more after each text export
   * that fetched something (`flushes`).
   */
  class NameCache {
    var usersMap: NameMap
    var chatsMap: NameMap
    var fetchedUsernames: nat
    var fetchedChatnames: nat
    var flushes: nat
    var saved: seq<Snapshot>

    /** Saves happen at every hundredth fetch of each kind and at each flush, and no saved entry was later changed or dropped. */
    ghost predicate Valid()
      reads this
    {
      |saved| == fetchedUsernames / 100 + fetchedChatnames / 100 + flushes
      && forall k :: 0 <= k < |saved| ==> SubMap(saved[k].users, usersMap) && SubMap(saved[k].chats, chatsMap)
    }

    /** The state `TelegramChatDownloader.__init__` starts from: the maps read from the configuration, counters at zero. */
    constructor(users: NameMap, chats: NameMap)
      ensures Valid()
      ensures usersMap == users && chatsMap == chats
      ensures fetchedUsernames == 0 && fetchedChatnames == 0 && flushes == 0 && saved == []
    {
      usersMap := users;
      chatsMap := chats;
      fetchedUsernames := 0;
      fetchedChatnames := 0;
      flushes := 0;
      saved := [];
    }

    /**
     * `_get_user_display_name`: `"Unknown"` for a falsy id, the cached name
     * without fetching, else the fetched name, which is cached and counted.
     * `None` is the `TypeError` of looking up an unhashable id.
     */
    method UserDisplayName(userId: Value, user: Option<Entity>, show: Value -> string) returns (name: Option<string>)
      requires Valid()
      modifies this
      ensures Valid()
      ensures !Truthy(userId) ==> name == Some("Unknown") && unchanged(this)
      ensures Truthy(userId) && HashKey(userId).None? ==> name.None? && unchanged(this)
      ensures Truthy(userId) && HashKey(userId).Some? ==>
        var key := HashKey(userId).value;
        (key in old(usersMap) ==> name == Some(old(usersMap)[key]) && unchanged(this))
        && (key !in old(usersMap) ==>
              name == Some(FetchUserName(Shown(userId, show), user))
              && usersMap == old(usersMap)[key := name.value] && chatsMap == old(chatsMap)
              && fetchedUsernames == old(fetchedUsernames) + 1
              && fetchedChatnames == old(fetchedChatnames) && flushes == old(flushes)
              && saved == old(saved) + (if fetchedUsernames % 100 == 0 then [Snapshot(usersMap, chatsMap)] else []))
    {
      if !Truthy(userId) {
        return Some("Unknown");
      }
      var key := HashKey(userId);
      if key.None? {
        return None;
      }
      if key.value in usersMap {
        return Some(usersMap[key.value]);
      }
      var n := FetchUserName(Shown(userId, show), user);
      CacheUserName(key.value, n);
      name := Some(n);
    }

    /** Caches a fetched user name and counts it, saving at every hundredth. */
    method CacheUserName(key: Value, name: string)
      requires Valid() && key !in usersMap
      modifies this
      ensures Valid()
      ensures usersMap == old(usersMap)[key := name] && chatsMap == old(chatsMap)
      ensures fetchedUsernames == old(fetchedUsernames) + 1
      ensures fetchedChatnames == old(fetchedChatnames) && flushes == old(flushes)
      ensures saved == old(saved) + (if fetchedUsernames % 100 == 0 then [Snapshot(usersMap, chatsMap)] else [])
    {
      ghost var before := usersMap;
      usersMap := usersMap[key := name];
      forall k | 0 <= k < |saved|
        ensures SubMap(saved[k].users, usersMap)
      {
        SubMapExtend(saved[k].users, before, key, name);
      }
      NextHundred(fetchedUsernames);
      fetchedUsernames := fetchedUsernames + 1;
      if fetchedUsernames % 100 == 0 {
        saved := saved + [Snapshot(usersMap, chatsMap)];
      }
    }

    /**
     * `_get_peer_display_name`: `"Unknown"` for a falsy id, a cached user or
     * chat name without fetching; for a basic group or channel its title (or
     * the id), cached and counted as a chat name; for anything else the user
     * display name. `entity` is what `get_entity(peer_id)` returned (`None`
     * also for an exception); `user` is the answer for `PeerUser(peer_id)`.
     * A `None` result is the exception of an unhashable id or of a group
     * without a `title`.
     */
    method PeerDisplayName(peerId: Value, entity: Option<Entity>, user: Option<Entity>, show: Value -> string)
      returns (name: Option<string>)
      requires Valid()
      modifies this
      ensures Valid()
      ensures !Truthy(peerId) ==> name == Some("Unknown") && unchanged(this)
      ensures Truthy(peerId) && HashKey(peerId).None? ==> name.None? && unchanged(this)
      ensures Truthy(peerId) && HashKey(peerId).Some? ==>
        var key := HashKey(peerId).value;
        (key in old(usersMap) ==> name == Some(old(usersMap)[key]) && unchanged(this))
        && (key !in old(usersMap) && key in old(chatsMap) ==> name == Some(old(chatsMap)[key]) && unchanged(this))
        && (key !in old(usersMap) && key !in old(chatsMap) && IsGroup(entity) ==>
              name == ChatTitle(Shown(peerId, show), entity.value)
              && usersMap == old(usersMap) && fetchedUsernames == old(fetchedUsernames) && flushes == old(flushes)
              && (name.None? ==> unchanged(this))
              && (name.Some? ==>
                    chatsMap == old(chatsMap)[key := name.value]
                    && fetchedChatnames == old(fetchedChatnames) + 1
                    && saved == old(saved) + (if fetchedChatnames % 100 == 0 then [Snapshot(usersMap, chatsMap)] else [])))
        && (key !in old(usersMap) && key !in old(chatsMap) && !IsGroup(entity) ==>
              name == Some(FetchUserName(Shown(peerId, show), user))
              && usersMap == old(usersMap)[key := name.value] && chatsMap == old(chatsMap)
              && fetchedUsernames == old(fetchedUsernames) + 1
              && fetchedChatnames == old(fetchedChatnames) && flushes == old(flushes)
              && saved == old(saved) + (if fetchedUsernames % 100 == 0 then [Snapshot(usersMap, chatsMap)] else []))
    {
      if !Truthy(peerId) {
        return Some("Unknown");
      }
      var key := HashKey(peerId);
      if key.None? {
        return None;
      }
      if key.value in usersMap {
        return Some(usersMap[key.value]);
      }
      if key.value in chatsMap {
        return Some(chatsMap[key.value]);
      }
      if IsGroup(entity) {
        name := ChatTitle(Shown(peerId, show), entity.value);
        if name.Some? {
          CacheChatName(key.value, name.value);
        }
        return;
      }
      name := UserDisplayName(peerId, user, show);
    }

    /** Caches a fetched chat name and counts it, saving at every hundredth. */
    method CacheChatName(key: Value, title: string)
      requires Valid() && key !in chatsMap
      modifies this
      ensures Valid()
      ensures chatsMap == old(chatsMap)[key := title] && usersMap == old(usersMap)
      ensures fetchedChatnames == old(fetchedChatnames) + 1
      ensures fetchedUsernames == old(fetchedUsernames) && flushes == old(flushes)
      ensures saved == old(saved) + (if fetchedChatnames % 100 == 0 then [Snapshot(usersMap, chatsMap)] else [])
    {
      chatsMap := chatsMap[key := title];
      NextHundred(fetchedChatnames);
      fetchedChatnames := fetchedChatnames + 1;
      if fetchedChatnames % 100 == 0 {
        saved := saved + [Snapshot(usersMap, chatsMap)];
      }
    }

    /** The `_save_config` after a text export, made when any name was fetched since start-up. */
    method FlushAfterExport()
      requires Valid()
      modifies this
      ensures Valid()
      ensures usersMap == old(usersMap) && chatsMap == old(chatsMap)
      ensures fetchedUsernames == old(fetchedUsernames) && fetchedChatnames == old(fetchedChatnames)
      ensures old(fetchedUsernames) > 0 || old(fetchedChatnames) > 0 ==>
        flushes == old(flushes) + 1 && saved == old(saved) + [Snapshot(usersMap, chatsMap)]
      ensures old(fetchedUsernames) == 0 && old(fetchedChatnames) == 0 ==> unchanged(this)
    {
      if fetchedUsernames > 0 || fetchedChatnames > 0 {
        flushes := flushes + 1;
        saved := saved + [Snapshot(usersMap, chatsMap)];
      }
    }
  }

  /** `isinstance(entity, (Chat, Channel))`. */
  predicate IsGroup(entity: Option<Entity>)
  {
    entity.Some? && (entity.value.kind.ChatKind? || entity.value.kind.ChannelKind?)
  }

  /** Asking twice for the same user fetches at most once, and both answers agree. */
  method RepeatedUserLookup(cache: NameCache, userId: Value, first: Option<Entity>, second: Option<Entity>, show: Value -> string)
    returns (a: Option<string>, b: Option<string>)
    requires cache.Valid()
    modifies cache
    ensures cache.Valid()
    ensures a == b
    ensures Truthy(userId) && HashKey(userId).Some? && HashKey(userId).value !in old(cache.usersMap) ==>
      a == Some(FetchUserName(Shown(userId, show), first))
    ensures cache.fetchedUsernames <= old(cache.fetchedUsernames) + 1
  {
    a := cache.UserDisplayName(userId, first, show);
    b := cache.UserDisplayName(userId, second, show);
  }
}
