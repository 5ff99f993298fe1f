/**
 * The in-memory store `MemStorage` (server/storage.ts): three maps keyed by
 * id and three id counters. Clock readings (`new Date()`) are parameters,
 * in milliseconds.
 */
module Storage {
  import opened Wrappers

  // ------------------------------------------------------------ records

  /** The user record; its fields besides `username` are not used by the store. */
  datatype User = User(id: int, username: string, password: string)
  datatype InsertUser = InsertUser(username: string, password: string)

  datatype Chat = Chat(id: int, title: string, language: string, createdAt: int, updatedAt: int)
  datatype InsertChat = InsertChat(title: string, language: Option<string>)

  /** `Partial<Chat>`: each present field overwrites the stored one. */
  datatype ChatUpdate = ChatUpdate(id: Option<int>, title: Option<string>, language: Option<string>,
                                   createdAt: Option<int>, updatedAt: Option<int>)

  /** Message metadata, e.g. `{language, topic}`. */
  datatype Metadata = Metadata(language: Option<string>, topic: Option<string>)

  datatype Message = Message(id: int, chatId: int, role: string, content: string,
                             metadata: Option<Metadata>, createdAt: int)
  datatype InsertMessage = InsertMessage(chatId: int, role: string, content: string, metadata: Option<Metadata>)

  /** `s || fallback` for an optional string. */
  function OrElse(s: Option<string>, fallback: string): (r: string)
    ensures s.Some? && s.value != "" ==> r == s.value
    ensures !(s.Some? && s.value != "") ==> r == fallback
  {
    if s.Some? && s.value != "" then s.value else fallback
  }

  // ------------------------------------------------- map iteration order

  /** The map holds exactly the ids a counter standing at `n` has handed out. */
  ghost predicate HoldsIds<T>(m: map<int, T>, n: int) {
    forall k :: k in m <==> 1 <= k < n
  }

  /**
   * The values of a map holding keys 1 .. n-1, in ascending key order. A
   * JavaScript `Map` iterates in insertion order, and the store inserts keys
   * in increasing order and never deletes, so this is `Array.from(m.values())`.
   */
  function InKeyOrder<T>(m: map<int, T>, n: int): (s: seq<T>)
    requires forall k :: 1 <= k < n ==> k in m
    ensures |s| == if n <= 1 then 0 else n - 1
    ensures forall i :: 0 <= i < |s| ==> s[i] == m[i + 1]
    decreases n
  {
    if n <= 1 then [] else InKeyOrder(m, n - 1) + [m[n - 1]]
  }

  /** `x` is stored under some key of `m`. */
  ghost predicate Stored<T>(m: map<int, T>, x: T) {
    exists k :: k in m && m[k] == x
  }

  /** Listing the values in key order loses and invents nothing. */
  lemma InKeyOrderValues<T>(m: map<int, T>, n: int)
    requires HoldsIds(m, n)
    ensures forall x :: x in InKeyOrder(m, n) <==> Stored(m, x)
  {
    var s := InKeyOrder(m, n);
    forall x | Stored(m, x) ensures x in s {
      var k :| k in m && m[k] == x;
      assert s[k - 1] == x;
    }
    forall x | x in s ensures Stored(m, x) {
      var i :| 0 <= i < |s| && s[i] == x;
      assert i + 1 in m && m[i + 1] == x;
    }
  }

  // ------------------------------------------------------- stable sorting

  predicate SortedBy<T>(s: seq<T>, key: T -> int) {
    forall i, j :: 0 <= i < j < |s| ==> key(s[i]) <= key(s[j])
  }

  /** The elements whose key is `v`, in their order in `s`. */
  function WithKey<T>(s: seq<T>, key: T -> int, v: int): seq<T> {
    if s == [] then [] else (if key(s[0]) == v then [s[0]] else []) + WithKey(s[1..], key, v)
  }

  /** Insert `x` after every element whose key is not greater than its own. */
  function Insert<T>(x: T, s: seq<T>, key: T -> int): seq<T> {
    if s == [] || key(x) < key(s[0]) then [x] + s else [s[0]] + Insert(x, s[1..], key)
  }

  lemma SortedTail<T>(s: seq<T>, key: T -> int)
    requires SortedBy(s, key) && s != []
    ensures SortedBy(s[1..], key)
    ensures forall j :: 0 <= j < |s| ==> key(s[0]) <= key(s[j])
  {
    forall i, j | 0 <= i < j < |s| - 1
      ensures key(s[1..][i]) <= key(s[1..][j])
    {
      assert s[1..][i] == s[i + 1] && s[1..][j] == s[j + 1];
    }
  }

  lemma {:induction false} InsertMultiset<T>(x: T, s: seq<T>, key: T -> int)
    ensures multiset(Insert(x, s, key)) == multiset(s) + multiset{x}
    ensures |Insert(x, s, key)| == |s| + 1
  {
    if s != [] && key(x) >= key(s[0]) {
      InsertMultiset(x, s[1..], key);
      assert s == [s[0]] + s[1..];
    }
  }

  lemma {:induction false} InsertKeepsOrder<T>(x: T, s: seq<T>, key: T -> int)
    requires SortedBy(s, key)
    ensures SortedBy(Insert(x, s, key), key)
  {
    if s == [] {
    } else if key(x) < key(s[0]) {
      var r := [x] + s;
      SortedTail(s, key);
      forall i, j | 0 <= i < j < |r|
        ensures key(r[i]) <= key(r[j])
      {
        assert r[j] == s[j - 1];
        if i > 0 {
          assert r[i] == s[i - 1];
        }
      }
    } else {
      var t := Insert(x, s[1..], key);
      SortedTail(s, key);
      InsertKeepsOrder(x, s[1..], key);
      InsertMultiset(x, s[1..], key);
      var r := [s[0]] + t;
      forall i, j | 0 <= i < j < |r|
        ensures key(r[i]) <= key(r[j])
      {
        assert r[j] == t[j - 1];
        if i == 0 {
          assert t[j - 1] in multiset(t);
          if t[j - 1] != x {
            assert t[j - 1] in multiset(s[1..]);
            var m :| 0 <= m < |s[1..]| && s[1..][m] == t[j - 1];
            assert s[1..][m] == s[m + 1];
          }
        } else {
          assert r[i] == t[i - 1];
        }
      }
    }
  }

  lemma {:induction false} WithKeyAppend<T>(s: seq<T>, x: T, key: T -> int, v: int)
    ensures WithKey(s + [x], key, v) == WithKey(s, key, v) + (if key(x) == v then [x] else [])
    decreases |s|
  {
    var hx: seq<T> := if key(x) == v then [x] else [];
    var r := s + [x];
    if s == [] {
      assert r == [x] && r[1..] == [];
      assert WithKey(r, key, v) == hx + WithKey(r[1..], key, v);
    } else {
      assert r[0] == s[0] && r[1..] == s[1..] + [x];
      var h0: seq<T> := if key(s[0]) == v then [s[0]] else [];
      WithKeyAppend(s[1..], x, key, v);
      calc {
        WithKey(r, key, v);
        h0 + WithKey(s[1..] + [x], key, v);
        h0 + (WithKey(s[1..], key, v) + hx);
        (h0 + WithKey(s[1..], key, v)) + hx;
        WithKey(s, key, v) + hx;
      }
    }
  }

  lemma {:induction false} WithKeyAbove<T>(s: seq<T>, key: T -> int, v: int)
    requires SortedBy(s, key) && (s == [] || key(s[0]) > v)
    ensures WithKey(s, key, v) == []
  {
    if s != [] {
      SortedTail(s, key);
      if |s| > 1 {
        assert s[1..][0] == s[1];
      }
      WithKeyAbove(s[1..], key, v);
    }
  }

  /** Inserting into a sorted sequence puts `x` after all its equals. */
  lemma {:induction false} WithKeyInsert<T>(x: T, s: seq<T>, key: T -> int, v: int)
    requires SortedBy(s, key)
    ensures WithKey(Insert(x, s, key), key, v) == WithKey(s, key, v) + (if key(x) == v then [x] else [])
  {
    var hx: seq<T> := if key(x) == v then [x] else [];
    if s == [] {
      var r := [x];
      assert Insert(x, s, key) == r && r[0] == x && r[1..] == [];
      assert WithKey(r, key, v) == hx + WithKey(r[1..], key, v);
    } else if key(x) < key(s[0]) {
      var r := [x] + s;
      assert Insert(x, s, key) == r && r[0] == x && r[1..] == s;
      assert WithKey(r, key, v) == hx + WithKey(s, key, v);
      if key(x) == v {
        WithKeyAbove(s, key, v);
      }
    } else {
      var t := Insert(x, s[1..], key);
      SortedTail(s, key);
      WithKeyInsert(x, s[1..], key, v);
      var r := [s[0]] + t;
      assert Insert(x, s, key) == r && r[0] == s[0] && r[1..] == t;
      var h0: seq<T> := if key(s[0]) == v then [s[0]] else [];
      assert WithKey(r, key, v) == h0 + WithKey(t, key, v);
      assert WithKey(s, key, v) == h0 + WithKey(s[1..], key, v);
    }
  }

  /**
   * Stable insertion sort by `key`, as JavaScript's `Array.prototype.sort`:
   * ascending, a permutation of the input, and elements with equal keys keep
   * their relative order.
   */
  function SortBy<T>(s: seq<T>, key: T -> int): (r: seq<T>)
    ensures SortedBy(r, key)
    ensures multiset(r) == multiset(s) && |r| == |s|
    ensures forall v :: WithKey(r, key, v) == WithKey(s, key, v)
  {
    if s == [] then []
    else
      var init, last := s[..|s| - 1], s[|s| - 1];
      assert s == init + [last];
      var sorted := SortBy(init, key);
      InsertKeepsOrder(last, sorted, key);
      InsertMultiset(last, sorted, key);
      forall v ensures WithKey(Insert(last, sorted, key), key, v) == WithKey(s, key, v) {
        WithKeyInsert(last, sorted, key, v);
        WithKeyAppend(init, last, key, v);
      }
      Insert(last, sorted, key)
  }

  /** Sorting keeps the same members. */
  lemma SortedMembers<T>(s: seq<T>, r: seq<T>, key: T -> int)
    requires multiset(r) == multiset(s)
    ensures forall x :: x in r <==> x in s
  {
    forall x ensures x in r <==> x in s {
      assert x in r <==> x in multiset(r);
      assert x in s <==> x in multiset(s);
    }
  }

  // --------------------------------------------------- filters and finds

  /** The messages of one chat, in their order in `s`. */
  function OfChat(s: seq<Message>, chatId: int): (r: seq<Message>)
    ensures forall m :: m in r <==> m in s && m.chatId == chatId
    ensures forall i :: 0 <= i < |r| ==> r[i].chatId == chatId
  {
    if s == [] then []
    else (if s[0].chatId == chatId then [s[0]] else []) + OfChat(s[1..], chatId)
  }

  /** `Array.prototype.find` by username: the first match in `s`, if any. */
  function FindByUsername(s: seq<User>, username: string): (r: Option<User>)
    ensures r.Some? ==> exists i :: 0 <= i < |s| && s[i] == r.value && s[i].username == username
                          && forall j :: 0 <= j < i ==> s[j].username != username
    ensures r.None? <==> forall i :: 0 <= i < |s| ==> s[i].username != username
  {
    if s == [] then None
    else if s[0].username == username then Some(s[0])
    else
      var r := FindByUsername(s[1..], username);
      assert forall i :: 1 <= i < |s| ==> s[i] == s[1..][i - 1];
      r
  }

  function NegatedUpdatedAt(c: Chat): int { -c.updatedAt }
  function CreatedAt(m: Message): int { m.createdAt }

  // ------------------------------------------------------------ the store

  class MemStorage {
    var users: map<int, User>
    var chats: map<int, Chat>
    var messages: map<int, Message>
    var currentUserId: int
    var currentChatId: int
    var currentMessageId: int

    /** Each map holds exactly the ids its counter has handed out. */
    ghost predicate Valid()
      reads this
    {
      && 1 <= currentUserId && 1 <= currentChatId && 1 <= currentMessageId
      && HoldsIds(users, currentUserId)
      && HoldsIds(chats, currentChatId)
      && HoldsIds(messages, currentMessageId)
      && (forall k :: k in users ==> users[k].id == k)
      && (forall k :: k in messages ==> messages[k].id == k)
    }

    constructor ()
      ensures Valid()
      ensures users == map[] && chats == map[] && messages == map[]
      ensures currentUserId == 1 && currentChatId == 1 && currentMessageId == 1
    {
      users, chats, messages := map[], map[], map[];
      currentUserId, currentChatId, currentMessageId := 1, 1, 1;
    }

    function UserList(): seq<User>
      reads this
      requires Valid()
    {
      InKeyOrder(users, currentUserId)
    }

    function ChatList(): seq<Chat>
      reads this
      requires Valid()
    {
      InKeyOrder(chats, currentChatId)
    }

    function MessageList(): seq<Message>
      reads this
      requires Valid()
    {
      InKeyOrder(messages, currentMessageId)
    }

    // ---------------------------------------------------------- users

    method GetUser(id: int) returns (r: Option<User>)
      requires Valid()
      ensures r.Some? <==> 1 <= id < currentUserId
      ensures r.Some? ==> r.value.id == id && Stored(users, r.value)
    {
      r := if id in users then Some(users[id]) else None;
    }

    /** The first user, in insertion order, with that username. */
    method GetUserByUsername(username: string) returns (r: Option<User>)
      requires Valid()
      ensures r.Some? ==> r.value.username == username && Stored(users, r.value)
      ensures r.Some? ==> forall k :: k in users && k < r.value.id ==> users[k].username != username
      ensures r.None? <==> forall k :: k in users ==> users[k].username != username
    {
      InKeyOrderValues(users, currentUserId);
      r := FindByUsername(UserList(), username);
      if r.Some? {
        var s := UserList();
        var i :| 0 <= i < |s| && s[i] == r.value && s[i].username == username
                 && forall j :: 0 <= j < i ==> s[j].username != username;
        assert r.value.id == i + 1;
        forall k | k in users && k < r.value.id ensures users[k].username != username {
          assert s[k - 1] == users[k];
        }
      } else {
        forall k | k in users ensures users[k].username != username {
          assert UserList()[k - 1] == users[k];
        }
      }
    }

    method CreateUser(insertUser: InsertUser) returns (u: User)
      requires Valid()
      modifies this
      ensures Valid()
      ensures u == User(old(currentUserId), insertUser.username, insertUser.password)
      ensures u.id !in old(users)
      ensures currentUserId == old(currentUserId) + 1
      ensures users == old(users)[u.id := u]
      ensures chats == old(chats) && messages == old(messages)
      ensures currentChatId == old(currentChatId) && currentMessageId == old(currentMessageId)
    {
      var id := currentUserId;
      currentUserId := currentUserId + 1;
      u := User(id, insertUser.username, insertUser.password);
      users := users[id := u];
    }

    // ---------------------------------------------------------- chats

    /** A new chat stamped with one clock reading; a falsy language becomes "en". */
    method CreateChat(insertChat: InsertChat, now: int) returns (c: Chat)
      requires Valid()
      modifies this
      ensures Valid()
      ensures c.id == old(currentChatId) && c.id !in old(chats)
      ensures c.title == insertChat.title
      ensures c.language == OrElse(insertChat.language, "en")
      ensures c.createdAt == now && c.updatedAt == now
      ensures currentChatId == old(currentChatId) + 1
      ensures chats == old(chats)[c.id := c]
      ensures users == old(users) && messages == old(messages)
      ensures currentUserId == old(currentUserId) && currentMessageId == old(currentMessageId)
    {
      var id := currentChatId;
      currentChatId := currentChatId + 1;
      c := Chat(id, insertChat.title, OrElse(insertChat.language, "en"), now, now);
      chats := chats[id := c];
    }

    /** Every chat, most recently updated first; equal times keep insertion order. */
    method GetChats() returns (r: seq<Chat>)
      requires Valid()
      ensures multiset(r) == multiset(ChatList())
      ensures forall c :: c in r <==> Stored(chats, c)
      ensures forall i, j :: 0 <= i < j < |r| ==> r[i].updatedAt >= r[j].updatedAt
      ensures forall v :: WithKey(r, NegatedUpdatedAt, v) == WithKey(ChatList(), NegatedUpdatedAt, v)
    {
      r := SortBy(ChatList(), NegatedUpdatedAt);
      InKeyOrderValues(chats, currentChatId);
      SortedMembers(ChatList(), r, NegatedUpdatedAt);
      forall i, j | 0 <= i < j < |r| ensures r[i].updatedAt >= r[j].updatedAt {
        assert NegatedUpdatedAt(r[i]) <= NegatedUpdatedAt(r[j]);
      }
    }

    method GetChatById(id: int) returns (r: Option<Chat>)
      requires Valid()
      ensures r.Some? <==> 1 <= id < currentChatId
      ensures r.Some? ==> id in chats && r.value == chats[id]
    {
      r := if id in chats then Some(chats[id]) else None;
    }

    /**
     * `{...chat, ...updates, updatedAt: now}` stored under the same id; an
     * unknown id answers undefined and changes nothing.
     */
    method UpdateChat(id: int, updates: ChatUpdate, now: int) returns (r: Option<Chat>)
      requires Valid()
      modifies this
      ensures Valid()
      ensures r.Some? <==> id in old(chats)
      ensures r.None? ==> chats == old(chats)
      ensures r.Some? ==> var c := old(chats)[id];
        && r.value == Chat(updates.id.GetOr(c.id), updates.title.GetOr(c.title),
                           updates.language.GetOr(c.language), updates.createdAt.GetOr(c.createdAt), now)
        && chats == old(chats)[id := r.value]
      ensures users == old(users) && messages == old(messages)
      ensures currentUserId == old(currentUserId) && currentChatId == old(currentChatId)
      ensures currentMessageId == old(currentMessageId)
    {
      if id !in chats {
        return None;
      }
      var c := chats[id];
      var merged := Chat(updates.id.GetOr(c.id), updates.title.GetOr(c.title),
                         updates.language.GetOr(c.language), updates.createdAt.GetOr(c.createdAt), now);
      chats := chats[id := merged];
      r := Some(merged);
    }

    // ------------------------------------------------------- messages

    /**
     * Stores the message (metadata absent stays absent) whether or not the
     * chat exists. When it exists, that chat alone gets `updatedAt` from a
     * second clock reading; otherwise the chats are untouched.
     */
    method CreateMessage(insertMessage: InsertMessage, nowMessage: int, nowChat: int) returns (m: Message)
      requires Valid()
      modifies this
      ensures Valid()
      ensures m == Message(old(currentMessageId), insertMessage.chatId, insertMessage.role,
                           insertMessage.content, insertMessage.metadata, nowMessage)
      ensures m.id !in old(messages)
      ensures currentMessageId == old(currentMessageId) + 1
      ensures messages == old(messages)[m.id := m]
      ensures insertMessage.chatId in old(chats) ==>
        chats == old(chats)[insertMessage.chatId := old(chats)[insertMessage.chatId].(updatedAt := nowChat)]
      ensures insertMessage.chatId !in old(chats) ==> chats == old(chats)
      ensures users == old(users)
      ensures currentUserId == old(currentUserId) && currentChatId == old(currentChatId)
    {
      var id := currentMessageId;
      currentMessageId := currentMessageId + 1;
      m := Message(id, insertMessage.chatId, insertMessage.role, insertMessage.content,
                   insertMessage.metadata, nowMessage);
      messages := messages[id := m];
      if insertMessage.chatId in chats {
        var chat := chats[insertMessage.chatId];
        chats := chats[insertMessage.chatId := chat.(updatedAt := nowChat)];
      }
    }

    /**
     * Exactly the messages of `chatId`, oldest first; equal times keep
     * insertion order. No messages gives the empty sequence.
     */
    method GetMessagesByChatId(chatId: int) returns (r: seq<Message>)
      requires Valid()
      ensures forall m :: m in r <==> Stored(messages, m) && m.chatId == chatId
      ensures multiset(r) == multiset(OfChat(MessageList(), chatId))
      ensures forall i, j :: 0 <= i < j < |r| ==> r[i].createdAt <= r[j].createdAt
      ensures forall v :: WithKey(r, CreatedAt, v) == WithKey(OfChat(MessageList(), chatId), CreatedAt, v)
    {
      var mine := OfChat(MessageList(), chatId);
      r := SortBy(mine, CreatedAt);
      InKeyOrderValues(messages, currentMessageId);
      SortedMembers(mine, r, CreatedAt);
      forall i, j | 0 <= i < j < |r| ensures r[i].createdAt <= r[j].createdAt {
        assert CreatedAt(r[i]) <= CreatedAt(r[j]);
      }
    }
  }
}
