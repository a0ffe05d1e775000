/**
 * The `purge` command: read a count with `parseInt`, then delete the
 * author's own most recent messages of the channel, the command message
 * included, looking at most 100 messages back in each round.
 */
module Purge {
  import opened JsString
  import opened Plugins

  // -----------------------------------------------------------------------
  // `parseInt` with no radix argument.

  predicate IsDigitIn(c: char, radix: nat) {
    if radix == 16 then ('0' <= c <= '9') || ('a' <= c <= 'f') || ('A' <= c <= 'F')
    else '0' <= c <= '9'
  }

  function DigitValue(c: char): nat {
    if '0' <= c <= '9' then c as nat - '0' as nat
    else if 'a' <= c <= 'f' then c as nat - 'a' as nat + 10
    else if 'A' <= c <= 'F' then c as nat - 'A' as nat + 10
    else 0
  }

  /** The longest prefix of `s` made of digits of `radix`. */
  function DigitPrefix(s: string, radix: nat): (r: string)
    ensures |r| <= |s| && r == s[..|r|]
    ensures forall i :: 0 <= i < |r| ==> IsDigitIn(r[i], radix)
    ensures |r| < |s| ==> !IsDigitIn(s[|r|], radix)
  {
    if s == [] || !IsDigitIn(s[0], radix) then [] else [s[0]] + DigitPrefix(s[1..], radix)
  }

  /** The number the digits `ds` denote in `radix`, most significant first. */
  function Value(ds: string, radix: nat): nat {
    if ds == [] then 0 else Value(ds[..|ds| - 1], radix) * radix + DigitValue(ds[|ds| - 1])
  }

  predicate HasHexPrefix(u: string) {
    |u| >= 2 && u[0] == '0' && (u[1] == 'x' || u[1] == 'X')
  }

  /** The digits `parseInt` reads once the sign is gone, and their radix. */
  function UnsignedPart(u: string): (string, nat) {
    if HasHexPrefix(u) then (DigitPrefix(u[2..], 16), 16) else (DigitPrefix(u, 10), 10)
  }

  /** `parseInt(s)`: skip leading white space, read an optional sign, read
      hexadecimal digits after `0x` or `0X` and decimal digits otherwise.
      `None` stands for NaN: no digit follows. */
  function ParseInt(s: string): Option<int> {
    ParseSigned(TrimStart(s))
  }

  /** `parseInt` once the leading white space is gone. */
  function ParseSigned(t: string): Option<int> {
    var negative := t != [] && t[0] == '-';
    var u := if t != [] && (t[0] == '-' || t[0] == '+') then t[1..] else t;
    var (digits, radix) := UnsignedPart(u);
    if digits == [] then None
    else if negative then Some(-(Value(digits, radix) as int))
    else Some(Value(digits, radix))
  }

  /** The decimal numeral of `n`, as `String(n)` writes it. */
  function Decimal(n: nat): (r: string)
    ensures r != [] && forall i :: 0 <= i < |r| ==> '0' <= r[i] <= '9'
    ensures |r| >= 2 ==> r[0] != '0'
  {
    if n < 10 then [('0' as nat + n) as char]
    else Decimal(n / 10) + [('0' as nat + n % 10) as char]
  }

  /** The count `process` accepts: a number of at least 1. */
  function PurgeCount(suffix: string): (r: Option<nat>)
    ensures r.Some? <==> ParseInt(suffix).Some? && ParseInt(suffix).value >= 1
    ensures r.Some? ==> r.value == ParseInt(suffix).value
  {
    match ParseInt(suffix)
    case Some(n) => if n >= 1 then Some(n) else None
    case None => None
  }

  // -----------------------------------------------------------------------
  // Properties of `parseInt`.

  /** The numeral of `n` reads back as `n`. */
  lemma {:induction false} DecimalValue(n: nat)
    ensures Value(Decimal(n), 10) == n
    decreases n
  {
    if n >= 10 {
      DecimalValue(n / 10);
      var d := Decimal(n);
      assert d[..|d| - 1] == Decimal(n / 10);
    }
  }

  /** The digit run of a numeral followed by a non-digit is the numeral. */
  lemma {:induction false} DigitsOfNumeral(d: string, rest: string, s: string)
    requires s == d + rest
    requires forall i :: 0 <= i < |d| ==> '0' <= d[i] <= '9'
    requires rest == [] || !IsDigitIn(rest[0], 10)
    ensures DigitPrefix(s, 10) == d
  {
    assert forall i :: 0 <= i < |d| ==> s[i] == d[i];
    assert |d| < |s| ==> s[|d|] == rest[0];
    assert s[..|d|] == d;
  }

  /** `parseInt` reads back the numeral of any natural number, also when a
      non-digit follows it. */
  lemma {:induction false} ParseDecimal(n: nat, rest: string)
    requires rest == [] || (!IsDigitIn(rest[0], 10) && rest[0] != 'x' && rest[0] != 'X')
    ensures ParseInt(Decimal(n) + rest) == Some(n)
  {
    var d := Decimal(n);
    var s := d + rest;
    assert s[0] == d[0];
    TrimStartOfSpaceFree(s);
    assert !HasHexPrefix(s) by {
      if |d| < 2 && |s| >= 2 {
        assert s[1] == rest[0];
      }
    }
    DigitsOfNumeral(d, rest, s);
    DecimalValue(n);
  }

  /** A minus sign negates. */
  lemma {:induction false} ParseNegative(n: nat)
    ensures ParseInt("-" + Decimal(n)) == Some(-(n as int))
  {
    var d := Decimal(n);
    var s := "-" + d;
    TrimStartOfSpaceFree(s);
    assert s[0] == '-' && s[1..] == d;
    assert d + [] == d;
    DigitsOfNumeral(d, [], d);
    DecimalValue(n);
    assert !HasHexPrefix(d) by {
      if |d| >= 2 {
        assert '0' <= d[1] <= '9';
      }
    }
    NegativeParts(s, d, n);
  }

  lemma {:induction false} NegativeParts(t: string, d: string, n: nat)
    requires t != [] && t[0] == '-' && t[1..] == d && !HasHexPrefix(d)
    requires DigitPrefix(d, 10) == d && d != [] && Value(d, 10) == n
    ensures ParseSigned(t) == Some(-(n as int))
  {
  }

  /** Leading white space is skipped. */
  lemma {:induction false} ParseSkipsSpace(w: string, s: string)
    requires AllSpace(w)
    ensures ParseInt(w + s) == ParseInt(s)
  {
    TrimStartSkipsSpace(w, s);
  }

  /** Text that starts with neither a digit nor a sign is NaN. */
  lemma {:induction false} ParseNaN(s: string)
    requires s != [] && !IsSpace(s[0]) && !IsDigitIn(s[0], 10) && s[0] != '-' && s[0] != '+'
    ensures ParseInt(s) == None
  {
    TrimStartOfSpaceFree(s);
  }

  /** Hexadecimal after `0x`: "0x1f" reads as 31. */
  lemma {:induction false} ParseHexExample()
    ensures ParseInt("0x1f") == Some(31)
  {
    TrimStartOfSpaceFree("0x1f");
    assert "0x1f"[2..] == "1f";
    HexDigits();
    assert UnsignedPart("0x1f") == ("1f", 16);
  }

  /** The digits "1f" in radix 16. */
  lemma {:induction false} HexDigits()
    ensures DigitPrefix("1f", 16) == "1f" && Value("1f", 16) == 31
  {
    assert DigitPrefix("1f", 16) == "1f";
    assert "1f"[..1] == "1";
    assert "1"[..0] == [];
  }

  // -----------------------------------------------------------------------
  // The channel log and the deletion loop.

  /** A message of the channel log. */
  datatype LogMessage = LogMessage(id: nat, author: string)

  /** How many messages `getChannelLogs(msg, 100)` returns at most. */
  const FetchLimit: nat := 100

  /** The most recent messages one fetch returns; the log is newest first. */
  function Window(log: seq<LogMessage>): seq<LogMessage> {
    if |log| <= FetchLimit then log else log[..FetchLimit]
  }

  /** The messages of `log` by `author`, in log order. */
  function ByAuthor(log: seq<LogMessage>, author: string): seq<LogMessage> {
    if log == [] then []
    else (if log[0].author == author then [log[0]] else []) + ByAuthor(log[1..], author)
  }

  /** The messages of `log` by anybody else, in log order. */
  function ByOthers(log: seq<LogMessage>, author: string): seq<LogMessage> {
    if log == [] then []
    else (if log[0].author != author then [log[0]] else []) + ByOthers(log[1..], author)
  }

  /** `deleteMessage`: the message with that id leaves the log. */
  function WithoutId(log: seq<LogMessage>, id: nat): seq<LogMessage> {
    if log == [] then []
    else (if log[0].id == id then [] else [log[0]]) + WithoutId(log[1..], id)
  }

  /** The ids of some messages. */
  function IdsOf(ms: seq<LogMessage>): set<nat> {
    set m | m in ms :: m.id
  }

  /** The log without the messages whose id is in `ids`, in log order. */
  function WithoutIds(log: seq<LogMessage>, ids: set<nat>): seq<LogMessage> {
    if log == [] then []
    else (if log[0].id in ids then [] else [log[0]]) + WithoutIds(log[1..], ids)
  }

  /** A message stays exactly when it was in the log and its id is not one
      of the deleted ids. */
  lemma {:induction false} WithoutIdsIn(log: seq<LogMessage>, ids: set<nat>, m: LogMessage)
    ensures m in WithoutIds(log, ids) <==> m in log && m.id !in ids
  {
    if log != [] {
      WithoutIdsIn(log[1..], ids, m);
      assert log == [log[0]] + log[1..];
      assert m in log <==> m == log[0] || m in log[1..];
    }
  }

  lemma {:induction false} WithoutNoIds(log: seq<LogMessage>)
    ensures WithoutIds(log, {}) == log
  {
    if log != [] {
      WithoutNoIds(log[1..]);
      assert log == [log[0]] + log[1..];
    }
  }

  /** Deleting one more message removes one more id from the log. */
  lemma {:induction false} WithoutIdsThenId(log: seq<LogMessage>, ids: set<nat>, id: nat)
    ensures WithoutId(WithoutIds(log, ids), id) == WithoutIds(log, ids + {id})
  {
    if log != [] {
      WithoutIdsThenId(log[1..], ids, id);
      var rest := WithoutIds(log[1..], ids);
      if log[0].id in ids {
        assert WithoutIds(log, ids) == [] + rest == rest;
        assert WithoutIds(log, ids + {id}) == [] + WithoutIds(log[1..], ids + {id});
      } else {
        var w := [log[0]] + rest;
        assert WithoutIds(log, ids) == w;
        assert w != [] && w[0] == log[0] && w[1..] == rest;
        assert WithoutId(w, id) == (if log[0].id == id then [] else [log[0]]) + WithoutId(rest, id);
      }
    }
  }

  /** Two rounds of deletions remove the ids of both. */
  lemma {:induction false} WithoutIdsTwice(log: seq<LogMessage>, a: set<nat>, b: set<nat>)
    ensures WithoutIds(WithoutIds(log, a), b) == WithoutIds(log, a + b)
  {
    if log != [] {
      WithoutIdsTwice(log[1..], a, b);
      var rest := WithoutIds(log[1..], a);
      if log[0].id in a {
        assert WithoutIds(log, a) == [] + rest == rest;
        assert WithoutIds(log, a + b) == [] + WithoutIds(log[1..], a + b);
      } else {
        var w := [log[0]] + rest;
        assert WithoutIds(log, a) == w;
        assert w != [] && w[0] == log[0] && w[1..] == rest;
        assert WithoutIds(w, b) == (if log[0].id in b then [] else [log[0]]) + WithoutIds(rest, b);
      }
    }
  }

  lemma {:induction false} IdsOfAppend(a: seq<LogMessage>, b: seq<LogMessage>)
    ensures IdsOf(a + b) == IdsOf(a) + IdsOf(b)
  {
    forall x | x in IdsOf(a + b)
      ensures x in IdsOf(a) + IdsOf(b)
    {
      var m :| m in a + b && m.id == x;
    }
    forall x | x in IdsOf(a) + IdsOf(b)
      ensures x in IdsOf(a + b)
    {
      if x in IdsOf(a) {
        var m :| m in a && m.id == x;
        assert m in a + b;
      } else {
        var m :| m in b && m.id == x;
        assert m in a + b;
      }
    }
  }

  predicate UniqueIds(log: seq<LogMessage>) {
    forall i, j :: 0 <= i < j < |log| ==> log[i].id != log[j].id
  }

  function Min(a: nat, b: nat): nat {
    if a <= b then a else b
  }

  /** The author's messages among the most recent ones are the most recent of
      all the author's messages. */
  lemma {:induction false} ByAuthorPrefix(log: seq<LogMessage>, n: nat, author: string)
    requires n <= |log|
    ensures |ByAuthor(log[..n], author)| <= |ByAuthor(log, author)|
    ensures ByAuthor(log[..n], author) == ByAuthor(log, author)[..|ByAuthor(log[..n], author)|]
  {
    if n > 0 {
      assert log[..n][1..] == log[1..][..n - 1];
      ByAuthorPrefix(log[1..], n - 1, author);
    }
  }

  lemma {:induction false} ByAuthorWindow(log: seq<LogMessage>, author: string)
    ensures |ByAuthor(Window(log), author)| <= |ByAuthor(log, author)|
    ensures ByAuthor(Window(log), author) == ByAuthor(log, author)[..|ByAuthor(Window(log), author)|]
  {
    if |log| > FetchLimit {
      ByAuthorPrefix(log, FetchLimit, author);
    } else {
      assert Window(log) == log;
    }
  }

  /** The filter by author keeps exactly the author's messages of the log. */
  lemma {:induction false} ByAuthorIn(log: seq<LogMessage>, author: string, m: LogMessage)
    ensures m in ByAuthor(log, author) <==> m in log && m.author == author
  {
    if log != [] {
      ByAuthorIn(log[1..], author, m);
      assert log == [log[0]] + log[1..];
      assert m in log <==> m == log[0] || m in log[1..];
    }
  }

  lemma {:induction false} NoIdLeft(log: seq<LogMessage>, id: nat)
    requires forall m :: m in log ==> m.id != id
    ensures WithoutId(log, id) == log
  {
    if log != [] {
      NoIdLeft(log[1..], id);
    }
  }

  /** Deleting the author's most recent message takes it off the front of the
      author's messages and leaves everybody else's alone. */
  lemma {:induction false} DeleteNewest(log: seq<LogMessage>, author: string)
    requires UniqueIds(log) && ByAuthor(log, author) != []
    ensures var m := ByAuthor(log, author)[0];
            && ByAuthor(WithoutId(log, m.id), author) == ByAuthor(log, author)[1..]
            && ByOthers(WithoutId(log, m.id), author) == ByOthers(log, author)
            && UniqueIds(WithoutId(log, m.id))
            && |WithoutId(log, m.id)| < |log|
  {
    var m := ByAuthor(log, author)[0];
    assert UniqueIds(log[1..]) by {
      forall i, j | 0 <= i < j < |log[1..]|
        ensures log[1..][i].id != log[1..][j].id
      {
        assert log[1..][i] == log[i + 1] && log[1..][j] == log[j + 1];
      }
    }
    if log[0].author == author {
      assert ByAuthor(log, author) == [log[0]] + ByAuthor(log[1..], author);
      assert ByOthers(log, author) == [] + ByOthers(log[1..], author);
      assert m == log[0];
      assert WithoutId(log, m.id) == [] + WithoutId(log[1..], m.id);
      forall x | x in log[1..]
        ensures x.id != m.id
      {
        var k :| 0 <= k < |log[1..]| && log[1..][k] == x;
        assert log[k + 1] == x;
      }
      NoIdLeft(log[1..], m.id);
      assert [] + log[1..] == log[1..];
      assert WithoutId(log, m.id) == log[1..];
      assert ([log[0]] + ByAuthor(log[1..], author))[1..] == ByAuthor(log[1..], author);
      assert [] + ByOthers(log[1..], author) == ByOthers(log[1..], author);
    } else {
      assert ByAuthor(log, author) == ByAuthor(log[1..], author);
      ByAuthorIn(log[1..], author, m);
      var k :| 0 <= k < |log[1..]| && log[1..][k] == m;
      assert log[k + 1] == m;
      assert log[0].id != m.id;
      DeleteNewest(log[1..], author);
      var rest := WithoutId(log[1..], m.id);
      assert WithoutId(log, m.id) == [log[0]] + rest;
      assert ([log[0]] + rest)[1..] == rest;
      forall x | x in rest
        ensures x.id != log[0].id
      {
        WithoutIdIn(log[1..], m.id, x);
        var j :| 0 <= j < |log[1..]| && log[1..][j] == x;
        assert log[j + 1] == x;
      }
      UniqueCons(log[0], rest);
    }
  }

  lemma {:induction false} WithoutIdIn(log: seq<LogMessage>, id: nat, x: LogMessage)
    requires x in WithoutId(log, id)
    ensures x in log
  {
    if log != [] {
      if log[0].id != id && x == log[0] {
      } else {
        WithoutIdIn(log[1..], id, x);
      }
    }
  }

  lemma {:induction false} UniqueCons(m: LogMessage, rest: seq<LogMessage>)
    requires UniqueIds(rest) && forall x :: x in rest ==> x.id != m.id
    ensures UniqueIds([m] + rest)
  {
    var s := [m] + rest;
    forall i, j | 0 <= i < j < |s|
      ensures s[i].id != s[j].id
    {
      assert s[j] == rest[j - 1];
      if i > 0 {
        assert s[i] == rest[i - 1];
      }
    }
  }

  /** Deleting the next message of a round removes its id as well. */
  lemma {:induction false} OneMoreDeleted(base: seq<LogMessage>, messages: seq<LogMessage>, k: nat)
    requires k < |messages|
    ensures WithoutId(WithoutIds(base, IdsOf(messages[..k])), messages[k].id) == WithoutIds(base, IdsOf(messages[..k + 1]))
  {
    WithoutIdsThenId(base, IdsOf(messages[..k]), messages[k].id);
    OneMoreId(messages, k);
  }

  lemma {:induction false} OneMoreId(messages: seq<LogMessage>, k: nat)
    requires k < |messages|
    ensures IdsOf(messages[..k + 1]) == IdsOf(messages[..k]) + {messages[k].id}
  {
    assert messages[..k + 1] == messages[..k] + [messages[k]];
    IdsOfAppend(messages[..k], [messages[k]]);
    assert IdsOf([messages[k]]) == {messages[k].id};
  }

  /** One round of deletions takes the next messages of the author. */
  lemma {:induction false} NextRound(mine: seq<LogMessage>, deleted: seq<LogMessage>, messages: seq<LogMessage>)
    requires |deleted| <= |mine| && deleted == mine[..|deleted|]
    requires |messages| <= |mine[|deleted|..]| && messages == mine[|deleted|..][..|messages|]
    ensures |deleted + messages| <= |mine| && deleted + messages == mine[..|deleted + messages|]
    ensures mine[|deleted|..][|messages|..] == mine[|deleted + messages|..]
  {
    assert mine[..|deleted + messages|] == mine[..|deleted|] + mine[|deleted|..][..|messages|];
  }

  /** A text channel, as far as `purge` sees it. */
  class Channel {
    /** The messages of the channel, newest first. */
    var log: seq<LogMessage>

    ghost predicate Valid()
      reads this
    {
      UniqueIds(log)
    }

    constructor (log: seq<LogMessage>)
      requires UniqueIds(log)
      ensures Valid() && this.log == log
    {
      this.log := log;
    }

    /** `deleteMessage(message)`. */
    method Delete(message: LogMessage)
      modifies this
      ensures log == WithoutId(old(log), message.id)
    {
      log := WithoutId(log, message.id);
    }

    /** `process` of the command, for a message by `author` whose suffix is
        `suffix`; the command message itself is in the log. An invalid count
        gets a reply and deletes nothing. Otherwise the author's newest
        messages are deleted, newest first, at most count + 1 of them; the
        deletion stops early only when the 100 most recent messages hold
        none of the author's; nobody else's message is touched. */
    method Process(author: string, suffix: string) returns (reply: Option<Reply>, deleted: seq<LogMessage>)
      requires Valid()
      modifies this
      ensures Valid()
      ensures PurgeCount(suffix).None? ==>
                reply == Some(Wrapped("Invalid number")) && deleted == [] && log == old(log)
      ensures PurgeCount(suffix).Some? ==>
                && reply == None
                && |deleted| <= PurgeCount(suffix).value + 1
                && |deleted| <= |ByAuthor(old(log), author)|
                && deleted == ByAuthor(old(log), author)[..|deleted|]
                && log == WithoutIds(old(log), IdsOf(deleted))
                && ByAuthor(log, author) == ByAuthor(old(log), author)[|deleted|..]
                && ByOthers(log, author) == ByOthers(old(log), author)
                && (|deleted| == PurgeCount(suffix).value + 1 || ByAuthor(Window(log), author) == [])
    {
      var parsed := ParseInt(suffix);
      if parsed.None? || parsed.value < 1 {
        return Some(Wrapped("Invalid number")), [];
      }
      reply := None;
      deleted := DeleteOwn(author, parsed.value + 1);
    }

    /** The deletion loop of `process`: delete up to `count` of the
        author's newest messages, in rounds over the 100 most recent. */
    method DeleteOwn(author: string, count: nat) returns (deleted: seq<LogMessage>)
      requires Valid()
      modifies this
      ensures Valid()
      ensures |deleted| <= count && |deleted| <= |ByAuthor(old(log), author)|
      ensures deleted == ByAuthor(old(log), author)[..|deleted|]
      ensures log == WithoutIds(old(log), IdsOf(deleted))
      ensures ByAuthor(log, author) == ByAuthor(old(log), author)[|deleted|..]
      ensures ByOthers(log, author) == ByOthers(old(log), author)
      ensures |deleted| == count || ByAuthor(Window(log), author) == []
    {
      var number: nat := count;
      deleted := [];
      ghost var mine := ByAuthor(log, author);
      assert IdsOf([]) == {};
      WithoutNoIds(log);
      while number > 0
        invariant Valid()
        invariant log == WithoutIds(old(log), IdsOf(deleted))
        invariant |deleted| + number == count
        invariant |deleted| <= |mine| && deleted == mine[..|deleted|]
        invariant ByAuthor(log, author) == mine[|deleted|..]
        invariant ByOthers(log, author) == ByOthers(old(log), author)
        decreases number
      {
        var messages := ByAuthor(Window(log), author);
        var num := Min(number, |messages|);
        messages := messages[..num];
        if num > 0 {
          ByAuthorWindow(log, author);
          DeleteRound(messages, author);
          WithoutIdsTwice(old(log), IdsOf(deleted), IdsOf(messages));
          IdsOfAppend(deleted, messages);
          NextRound(mine, deleted, messages);
          deleted := deleted + messages;
          number := number - num;
        } else {
          break;
        }
      }
    }

    /** The inner loop: delete `messages` one by one. They are the author's
        newest messages, so each deletion takes the next of them. */
    method DeleteRound(messages: seq<LogMessage>, ghost author: string)
      requires Valid()
      requires |messages| <= |ByAuthor(log, author)| && messages == ByAuthor(log, author)[..|messages|]
      modifies this
      ensures Valid()
      ensures log == WithoutIds(old(log), IdsOf(messages))
      ensures ByAuthor(log, author) == ByAuthor(old(log), author)[|messages|..]
      ensures ByOthers(log, author) == ByOthers(old(log), author)
    {
      ghost var mine := ByAuthor(log, author);
      assert IdsOf(messages[..0]) == {};
      WithoutNoIds(log);
      for k := 0 to |messages|
        invariant Valid()
        invariant log == WithoutIds(old(log), IdsOf(messages[..k]))
        invariant ByAuthor(log, author) == mine[k..]
        invariant ByOthers(log, author) == ByOthers(old(log), author)
      {
        assert messages[k] == mine[k] == ByAuthor(log, author)[0];
        DeleteNewest(log, author);
        Delete(messages[k]);
        assert mine[k..][1..] == mine[k + 1..];
        OneMoreDeleted(old(log), messages, k);
      }
      assert messages[..|messages|] == messages;
    }
  }
}
