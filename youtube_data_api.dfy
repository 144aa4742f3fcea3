/** The polling YouTube connector over the Data API (youtube-adapter.js):
    the set of message ids already seen, which drops its 500 oldest ids
    once it holds 1000; the record built for a text message; the state a
    `liveChatMessages` response updates; and `stop`. The HTTP requests and
    the timers are not modelled: a response arrives as a value, a timer as
    its handle. */
module YouTubeDataApi {
  import opened JsText

  /** `maxProcessedIds` */
  const MaxProcessedIds: nat := 1000
  /** How many of the oldest ids are dropped when the set is full. */
  const EvictCount: nat := 500
  /** The polling interval before the first response. */
  const InitialPollIntervalMs: int := 3000
  /** The shortest polling interval the adapter accepts. */
  const MinPollIntervalMs: int := 2000

  predicate NoDuplicates(s: seq<string>) {
    forall i, j :: 0 <= i < j < |s| ==> s[i] != s[j]
  }

  /** `Set.prototype.delete` on a set kept as its ids in insertion order. */
  function Remove(s: seq<string>, x: string): (r: seq<string>)
    ensures x !in r
    ensures forall y :: y in r <==> y in s && y != x
  {
    if s == [] then [] else (if s[0] == x then [] else [s[0]]) + Remove(s[1..], x)
  }

  /** Deleting an id that is not there changes nothing. */
  lemma {:induction false} RemoveAbsent(s: seq<string>, x: string)
    requires x !in s
    ensures Remove(s, x) == s
  {
    if s != [] {
      RemoveAbsent(s[1..], x);
    }
  }

  /** Deleting the oldest id of a set drops exactly the first entry. */
  lemma RemoveOldest(s: seq<string>)
    requires |s| > 0 && NoDuplicates(s)
    ensures Remove(s, s[0]) == s[1..]
  {
    assert s[0] !in s[1..];
    RemoveAbsent(s[1..], s[0]);
  }

  /** The ids after a new id is recorded: the 500 oldest dropped first when
      the set is full, then the new id at the end. A known id changes
      nothing. */
  function Admit(ids: seq<string>, id: string): seq<string> {
    if id in ids then ids
    else (if |ids| >= MaxProcessedIds then ids[EvictCount..] else ids) + [id]
  }

  /** Recording an id keeps the set free of duplicates and at most
      `MaxProcessedIds` large; the id is in it afterwards and is the newest
      entry; what is kept of the old ids is a suffix of them, the whole of
      them unless the set was full. */
  lemma AdmitBounded(ids: seq<string>, id: string)
    requires NoDuplicates(ids) && |ids| <= MaxProcessedIds
    ensures var r := Admit(ids, id);
      && NoDuplicates(r) && |r| <= MaxProcessedIds && id in r
      && (id !in ids ==> r[|r| - 1] == id && |r| > 0)
      && (id !in ids && |ids| < MaxProcessedIds ==> r[..|r| - 1] == ids)
      && (id !in ids && |ids| >= MaxProcessedIds ==> r[..|r| - 1] == ids[EvictCount..] && |r| == MaxProcessedIds - EvictCount + 1)
  {
    var r := Admit(ids, id);
    if id !in ids {
      var kept := if |ids| >= MaxProcessedIds then ids[EvictCount..] else ids;
      assert r[..|r| - 1] == kept;
      forall i, j | 0 <= i < j < |r| ensures r[i] != r[j] {
        if j == |r| - 1 {
          assert r[i] == kept[i] && kept[i] in ids;
        } else if |ids| >= MaxProcessedIds {
          assert r[i] == ids[i + EvictCount] && r[j] == ids[j + EvictCount];
        }
      }
    }
  }

  /** `authorDetails` of a chat message. */
  datatype AuthorDetails = AuthorDetails(
    displayName: string,
    profileImageUrl: string,
    isChatOwner: bool,
    isChatModerator: bool,
    isChatSponsor: bool,
    isVerified: bool)

  /** `snippet` of a chat message; `messageText` is
      `textMessageDetails?.messageText`. */
  datatype Snippet = Snippet(
    kind: string,
    messageText: Option<string>,
    displayMessage: Option<string>,
    publishedAt: string)

  datatype Item = Item(id: string, snippet: Snippet, authorDetails: AuthorDetails)

  datatype Badge = Badge(kind: string, text: string)

  /** The record `processMessage` returns for a text message. */
  datatype ChatMessage = ChatMessage(
    id: string,
    username: string,
    message: string,
    profileImageUrl: string,
    badges: seq<Badge>,
    isChatOwner: bool,
    isModerator: bool,
    isMember: bool,
    isVerified: bool,
    publishedAt: string)

  /** `[b]` when the flag is set, else nothing. */
  function IfSet(flag: bool, b: Badge): seq<Badge> {
    if flag then [b] else []
  }

  /** The badges of the author, one per set flag, in the order owner,
      moderator, member, verified. */
  function Badges(a: AuthorDetails): seq<Badge> {
    IfSet(a.isChatOwner, Badge("owner", "Owner"))
    + IfSet(a.isChatModerator, Badge("moderator", "Moderator"))
    + IfSet(a.isChatSponsor, Badge("member", "Member"))
    + IfSet(a.isVerified, Badge("verified", "Verified"))
  }

  /** The badge list holds exactly one entry per set flag, each with its
      label, and no other; the entries are in the order owner, moderator,
      member, verified. */
  lemma BadgesExact(a: AuthorDetails)
    ensures var bs := Badges(a);
      && (Badge("owner", "Owner") in bs <==> a.isChatOwner)
      && (Badge("moderator", "Moderator") in bs <==> a.isChatModerator)
      && (Badge("member", "Member") in bs <==> a.isChatSponsor)
      && (Badge("verified", "Verified") in bs <==> a.isVerified)
      && |bs| == (if a.isChatOwner then 1 else 0) + (if a.isChatModerator then 1 else 0)
                 + (if a.isChatSponsor then 1 else 0) + (if a.isVerified then 1 else 0)
      && (forall i, j :: 0 <= i < j < |bs| ==> Rank(bs[i]) < Rank(bs[j]))
  {
  }

  /** A badge's place in the listing order. */
  function Rank(b: Badge): nat {
    if b.kind == "owner" then 0 else if b.kind == "moderator" then 1 else if b.kind == "member" then 2 else 3
  }

  /** The badge-building statements of `processMessage`. */
  method BuildBadges(author: AuthorDetails) returns (badges: seq<Badge>)
    ensures badges == Badges(author)
  {
    badges := [];
    if author.isChatOwner {
      badges := badges + [Badge("owner", "Owner")];
    }
    if author.isChatModerator {
      badges := badges + [Badge("moderator", "Moderator")];
    }
    if author.isChatSponsor {
      badges := badges + [Badge("member", "Member")];
    }
    if author.isVerified {
      badges := badges + [Badge("verified", "Verified")];
    }
  }

  /** What `processMessage` returns for an item it has not seen: `null`
      unless it is a text message. */
  function Shape(item: Item): Option<ChatMessage> {
    if item.snippet.kind != "textMessageEvent" then None
    else
      var a := item.authorDetails;
      Some(ChatMessage(
        item.id,
        a.displayName,
        OrElse(item.snippet.messageText, OrElse(item.snippet.displayMessage, "")),
        a.profileImageUrl,
        Badges(a),
        a.isChatOwner, a.isChatModerator, a.isChatSponsor, a.isVerified,
        item.snippet.publishedAt))
  }

  /** The record copies the item's id and the author's flags, and its text
      is the message text, else the display message, else empty. */
  lemma ShapeFields(item: Item)
    ensures Shape(item).Some? <==> item.snippet.kind == "textMessageEvent"
    ensures Shape(item).Some? ==> var m := Shape(item).value;
      && m.id == item.id
      && (Truthy(item.snippet.messageText) ==> m.message == item.snippet.messageText.value)
      && (!Truthy(item.snippet.messageText) && Truthy(item.snippet.displayMessage) ==> m.message == item.snippet.displayMessage.value)
      && (!Truthy(item.snippet.messageText) && !Truthy(item.snippet.displayMessage) ==> m.message == "")
      && m.isChatOwner == item.authorDetails.isChatOwner && m.isModerator == item.authorDetails.isChatModerator
      && m.isMember == item.authorDetails.isChatSponsor && m.isVerified == item.authorDetails.isVerified
      && |m.badges| <= 4
  {
    BadgesExact(item.authorDetails);
  }

  /** `data.error` of a response: its code, the reason of its first entry,
      its message. */
  datatype ApiError = ApiError(code: int, firstReason: Option<string>)

  /** A `liveChatMessages` response, already parsed. */
  datatype Response = Response(
    error: Option<ApiError>,
    nextPageToken: Option<string>,
    pollingIntervalMillis: Option<int>,
    items: Option<seq<Item>>)

  predicate ChatEnded(e: ApiError) {
    e.code == 403 && e.firstReason == Some("liveChatEnded")
  }

  /** The adapter's state. A timer is its handle. */
  class YouTubeAdapter {
    var liveChatId: Option<string>
    var nextPageToken: Option<string>
    var pollingInterval: Option<nat>
    var isRunning: bool
    var pollIntervalMs: int
    var processedMessageIds: seq<string>

    /** The ids seen are a set of at most `MaxProcessedIds`, and the
        polling interval is never below `MinPollIntervalMs`. */
    ghost predicate Valid()
      reads this
    {
      NoDuplicates(processedMessageIds) && |processedMessageIds| <= MaxProcessedIds
      && pollIntervalMs >= MinPollIntervalMs
    }

    /** The fields `processMessage` leaves alone. */
    function Settings(): (Option<string>, Option<string>, Option<nat>, bool, int)
      reads this
    {
      (liveChatId, nextPageToken, pollingInterval, isRunning, pollIntervalMs)
    }

    constructor ()
      ensures Valid()
      ensures liveChatId.None? && nextPageToken.None? && pollingInterval.None? && !isRunning
      ensures pollIntervalMs == InitialPollIntervalMs && processedMessageIds == []
    {
      liveChatId := None;
      nextPageToken := None;
      pollingInterval := None;
      isRunning := false;
      pollIntervalMs := InitialPollIntervalMs;
      processedMessageIds := [];
    }

    /** `processMessage(item)`: `null` for an id already seen, leaving the
        set alone; otherwise the id is recorded, after the 500 oldest are
        dropped if the set is full, and the item's record is returned when
        it is a text message. */
    method ProcessMessage(item: Item) returns (r: Option<ChatMessage>)
      requires Valid()
      modifies this
      ensures Valid()
      ensures processedMessageIds == Admit(old(processedMessageIds), item.id)
      ensures r == if item.id in old(processedMessageIds) then None else Shape(item)
      ensures Settings() == old(Settings())
    {
      AdmitBounded(processedMessageIds, item.id);
      if item.id in processedMessageIds {
        return None;
      }
      if |processedMessageIds| >= MaxProcessedIds {
        var idsArray := processedMessageIds;
        for i := 0 to EvictCount
          invariant processedMessageIds == idsArray[i..]
          invariant Settings() == old(Settings())
        {
          assert NoDuplicates(idsArray[i..]);
          RemoveOldest(idsArray[i..]);
          processedMessageIds := Remove(processedMessageIds, idsArray[i]);
        }
      }
      processedMessageIds := processedMessageIds + [item.id];
      var snippet := item.snippet;
      var author := item.authorDetails;
      if snippet.kind != "textMessageEvent" {
        return None;
      }
      var badges := BuildBadges(author);
      r := Some(ChatMessage(
        item.id,
        author.displayName,
        OrElse(snippet.messageText, OrElse(snippet.displayMessage, "")),
        author.profileImageUrl,
        badges,
        author.isChatOwner, author.isChatModerator, author.isChatSponsor, author.isVerified,
        snippet.publishedAt));
    }

    /** `stop()`: not running, the timer cleared, the ids forgotten. */
    method Stop()
      requires Valid()
      modifies this
      ensures Valid()
      ensures !isRunning && pollingInterval.None? && processedMessageIds == []
      ensures liveChatId == old(liveChatId) && nextPageToken == old(nextPageToken) && pollIntervalMs == old(pollIntervalMs)
    {
      isRunning := false;
      if pollingInterval.Some? {
        pollingInterval := None;
      }
      processedMessageIds := [];
    }

    /** What `fetchMessages()` does with a response: nothing and no items
        without a chat id; on the chat-ended error, `stop()`; on any other
        error, no items and no change; otherwise the next page token is
        stored, the polling interval is raised to at least 2000 ms when the
        response names one, and the items are returned. */
    method HandleResponse(data: Response) returns (items: seq<Item>)
      requires Valid()
      modifies this
      ensures Valid()
      ensures !Truthy(old(liveChatId)) ==> items == [] && Settings() == old(Settings()) && processedMessageIds == old(processedMessageIds)
      ensures Truthy(old(liveChatId)) && data.error.Some? ==> items == []
      ensures Truthy(old(liveChatId)) && data.error.Some? && ChatEnded(data.error.value) ==>
        !isRunning && pollingInterval.None? && processedMessageIds == []
        && liveChatId == old(liveChatId) && nextPageToken == old(nextPageToken) && pollIntervalMs == old(pollIntervalMs)
      ensures Truthy(old(liveChatId)) && data.error.Some? && !ChatEnded(data.error.value) ==>
        Settings() == old(Settings()) && processedMessageIds == old(processedMessageIds)
      ensures Truthy(old(liveChatId)) && data.error.None? ==>
        && nextPageToken == data.nextPageToken
        && pollIntervalMs == (if data.pollingIntervalMillis.Some? && data.pollingIntervalMillis.value != 0
                              then Max(data.pollingIntervalMillis.value, MinPollIntervalMs) else old(pollIntervalMs))
        && items == (if data.items.Some? then data.items.value else [])
        && liveChatId == old(liveChatId) && isRunning == old(isRunning) && pollingInterval == old(pollingInterval)
        && processedMessageIds == old(processedMessageIds)
    {
      if !Truthy(liveChatId) {
        return [];
      }
      if data.error.Some? {
        if ChatEnded(data.error.value) {
          Stop();
        }
        return [];
      }
      nextPageToken := data.nextPageToken;
      if data.pollingIntervalMillis.Some? && data.pollingIntervalMillis.value != 0 {
        pollIntervalMs := Max(data.pollingIntervalMillis.value, MinPollIntervalMs);
      }
      items := if data.items.Some? then data.items.value else [];
    }
  }

  /** `Math.max` */
  function Max(a: int, b: int): (m: int)
    ensures m >= a && m >= b && (m == a || m == b)
  {
    if a >= b then a else b
  }
}
