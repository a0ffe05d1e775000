/**
 * The `tag` command of the chat plugin: named snippets of text kept per
 * server, or globally (server `""`), with sub-commands to save, globalise,
 * remove, list and show them. The database collection is a sequence of
 * entries in insertion order; an entry's `id` stands for its document id.
 */
module Tags {
  import opened JsString
  import opened Plugins

  /** A stored tag document. */
  datatype TagEntry = TagEntry(id: nat, tag: string, server: string, content: string)

  /** What `process` does with its suffix. */
  datatype TagCommand =
    | SetCmd(tag: string, content: string)
    | GlobalCmd(name: string)
    | RemoveCmd(name: string)
    | ListCmd
    | ShowCmd(name: string)

  /** The answer of `showTag`: the reply, and whether the message that asked
      is deleted. */
  datatype Shown = Shown(reply: Reply, deleteOriginal: bool)

  /** The dispatch of `process` and its argument splitting. */
  function ParseTagCommand(suffix: string): (r: TagCommand)
    ensures r.SetCmd? <==> SubCommand(suffix) == "set"
    ensures r.GlobalCmd? <==> SubCommand(suffix) == "global"
    ensures r.RemoveCmd? <==> SubCommand(suffix) == "remove"
    ensures r.ListCmd? <==> SubCommand(suffix) == "list"
    ensures r.ShowCmd? ==> r.name == suffix
    ensures r.SetCmd? ==> IsTrimmed(r.tag) && NoTokenBreak(r.tag) && IsTrimmed(r.content)
    ensures r.GlobalCmd? || r.RemoveCmd? ==> IsTrimmed(r.name)
  {
    var command := SubCommand(suffix);
    if command == "set" then
      var rest := Trim(From(suffix, |command|));
      var tag := Trim(FirstToken(rest));
      TrimKeepsNoTokenBreak(FirstToken(rest));
      SetCmd(tag, Trim(From(rest, |tag|)))
    else if command == "global" then GlobalCmd(Trim(From(suffix, |command|)))
    else if command == "remove" then RemoveCmd(Trim(From(suffix, |command|)))
    else if command == "list" then ListCmd
    else ShowCmd(suffix)
  }

  // ---------------------------------------------------------------------
  // Looking a tag up.

  /** An entry answers to `name` on `server`: it has that name and belongs to
      that server or to every server. */
  predicate Visible(e: TagEntry, name: string, server: string) {
    e.tag == name && (e.server == server || e.server == "")
  }

  /** `getTag`: the position of the first entry visible under `name` from
      `server`; `None` stands for the fresh, unsaved entry it makes then. */
  function GetTag(entries: seq<TagEntry>, name: string, server: string): (r: Option<nat>)
    ensures r.Some? ==> r.value < |entries| && Visible(entries[r.value], name, server)
    ensures r.Some? ==> forall j :: 0 <= j < r.value ==> !Visible(entries[j], name, server)
    ensures r.None? ==> forall j :: 0 <= j < |entries| ==> !Visible(entries[j], name, server)
  {
    if entries == [] then None
    else if Visible(entries[0], name, server) then Some(0)
    else
      match GetTag(entries[1..], name, server)
      case None => None
      case Some(k) => Some(k + 1)
  }

  /** `entry.get('content')` of the entry `getTag` returns; a fresh entry has
      none, which reads as empty. */
  function FoundContent(entries: seq<TagEntry>, name: string, server: string): (r: string)
    ensures r != [] ==> GetTag(entries, name, server).Some?
    ensures GetTag(entries, name, server).Some? ==> r == entries[GetTag(entries, name, server).value].content
  {
    match GetTag(entries, name, server)
    case Some(i) => entries[i].content
    case None => []
  }

  function NoSuchTag(name: string): Reply {
    Wrapped("No such tag '" + name + "'")
  }

  /** `showTag`: the content as a plain message, deleting the request, or a
      complaint when the tag has no content. */
  function ShowTag(entries: seq<TagEntry>, name: string, server: string): (r: Shown)
    ensures r.deleteOriginal <==> FoundContent(entries, name, server) != []
    ensures r.deleteOriginal ==> r.reply == Plain(FoundContent(entries, name, server))
    ensures !r.deleteOriginal ==> r.reply == NoSuchTag(name)
  {
    var content := FoundContent(entries, name, server);
    if content == [] then Shown(NoSuchTag(name), false) else Shown(Plain(content), true)
  }

  // ---------------------------------------------------------------------
  // The store after each change.

  /** No two entries share a document id. */
  predicate UniqueIds(entries: seq<TagEntry>) {
    forall j, k :: 0 <= j < k < |entries| ==> entries[j].id != entries[k].id
  }

  /** The store after `setTag(tag, content)` from `server`, where `newId` is
      the id a new document gets. */
  function AfterSet(entries: seq<TagEntry>, newId: nat, tag: string, content: string, server: string): seq<TagEntry> {
    match GetTag(entries, tag, server)
    case Some(i) => entries[i := entries[i].(content := content)]
    case None => entries + [TagEntry(newId, tag, server, content)]
  }

  /** `Tag.remove({tag: name, server: {$ne: keep}})`: drops every entry named
      `name` outside the server `keep`, keeping the order of the rest. */
  function RemoveLocal(entries: seq<TagEntry>, name: string, keep: string): (r: seq<TagEntry>)
    ensures forall e :: e in r <==> e in entries && (e.tag != name || e.server == keep)
  {
    if entries == [] then []
    else
      var rest := RemoveLocal(entries[1..], name, keep);
      if entries[0].tag != name || entries[0].server == keep then [entries[0]] + rest
      else rest
  }

  /** The remove query deletes documents and creates none, so ids stay
      unique. */
  lemma {:induction false} RemoveLocalKeepsUnique(entries: seq<TagEntry>, name: string, keep: string)
    requires UniqueIds(entries)
    ensures UniqueIds(RemoveLocal(entries, name, keep))
  {
    if entries != [] {
      var rest := RemoveLocal(entries[1..], name, keep);
      assert UniqueIds(entries[1..]) by {
        forall j, k | 0 <= j < k < |entries| - 1
          ensures entries[1..][j].id != entries[1..][k].id
        {
          assert entries[1..][j] == entries[j + 1] && entries[1..][k] == entries[k + 1];
        }
      }
      RemoveLocalKeepsUnique(entries[1..], name, keep);
      if entries[0].tag != name || entries[0].server == keep {
        var r := [entries[0]] + rest;
        forall j, k | 0 <= j < k < |r|
          ensures r[j].id != r[k].id
        {
          if j == 0 {
            assert r[k] == rest[k - 1] && rest[k - 1] in entries[1..];
            var m :| 0 <= m < |entries[1..]| && entries[1..][m] == r[k];
            assert entries[m + 1] == r[k];
          } else {
            assert r[j] == rest[j - 1] && r[k] == rest[k - 1];
          }
        }
      }
    }
  }

  /** `entry.set('server', server); entry.save()` for the document `id`. */
  function SetServer(entries: seq<TagEntry>, id: nat, server: string): (r: seq<TagEntry>)
    ensures |r| == |entries|
    ensures forall k :: 0 <= k < |r| ==>
              && r[k].id == entries[k].id && r[k].tag == entries[k].tag && r[k].content == entries[k].content
              && r[k].server == (if entries[k].id == id then server else entries[k].server)
  {
    seq(|entries|, k requires 0 <= k < |entries| =>
      if entries[k].id == id then entries[k].(server := server) else entries[k])
  }

  /** The store after `makeGlobal` found the entry at `i`. */
  function AfterGlobal(entries: seq<TagEntry>, i: nat): seq<TagEntry>
    requires i < |entries|
  {
    SetServer(RemoveLocal(entries, entries[i].tag, entries[i].server), entries[i].id, "")
  }

  /** The store after `removeTag` found the entry at `i`. */
  function AfterRemove(entries: seq<TagEntry>, i: nat): seq<TagEntry>
    requires i < |entries|
  {
    entries[..i] + entries[i + 1..]
  }

  // ---------------------------------------------------------------------
  // Listing.

  /** The order of `sort('tag', 1)` on strings: lexicographic by character. */
  predicate TagLe(a: string, b: string) {
    if a == [] then true
    else if b == [] then false
    else if a[0] != b[0] then a[0] < b[0]
    else TagLe(a[1..], b[1..])
  }

  predicate SortedByTag(s: seq<TagEntry>) {
    forall j, k :: 0 <= j < k < |s| ==> TagLe(s[j].tag, s[k].tag)
  }

  /** Any two tags are ordered one way or the other. */
  lemma {:induction false} TagLeTotal(a: string, b: string)
    ensures TagLe(a, b) || TagLe(b, a)
  {
    if a != [] && b != [] && a[0] == b[0] {
      TagLeTotal(a[1..], b[1..]);
    }
  }

  /** The order is transitive. */
  lemma {:induction false} TagLeTrans(a: string, b: string, c: string)
    requires TagLe(a, b) && TagLe(b, c)
    ensures TagLe(a, c)
  {
    if a != [] && b != [] && c != [] && a[0] == b[0] && b[0] == c[0] {
      TagLeTrans(a[1..], b[1..], c[1..]);
    }
  }

  /** Puts `x` before the first entry whose tag is not below its own. */
  function Insert(x: TagEntry, s: seq<TagEntry>): (r: seq<TagEntry>)
    ensures multiset(r) == multiset(s) + multiset{x}
  {
    if s == [] then [x]
    else if TagLe(x.tag, s[0].tag) then [x] + s
    else
      assert s == [s[0]] + s[1..];
      [s[0]] + Insert(x, s[1..])
  }

  lemma {:induction false} InsertSorted(x: TagEntry, s: seq<TagEntry>)
    requires SortedByTag(s)
    ensures SortedByTag(Insert(x, s))
  {
    if s != [] && !TagLe(x.tag, s[0].tag) {
      InsertSorted(x, s[1..]);
      TagLeTotal(x.tag, s[0].tag);
      InsertAbove(s[0].tag, x, s[1..]);
      SortedCons(s[0], Insert(x, s[1..]));
    } else if s != [] {
      forall e | e in s
        ensures TagLe(x.tag, e.tag)
      {
        var k :| 0 <= k < |s| && s[k] == e;
        if k > 0 {
          TagLeTrans(x.tag, s[0].tag, e.tag);
        }
      }
      SortedCons(x, s);
    }
  }

  /** Every tag of `Insert(x, s)` is one of `x` and of `s`. */
  lemma {:induction false} InsertAbove(low: string, x: TagEntry, s: seq<TagEntry>)
    requires TagLe(low, x.tag) && forall e :: e in s ==> TagLe(low, e.tag)
    ensures forall e :: e in Insert(x, s) ==> TagLe(low, e.tag)
  {
    forall e | e in Insert(x, s)
      ensures TagLe(low, e.tag)
    {
      assert e in multiset(Insert(x, s));
      assert e == x || e in multiset(s);
    }
  }

  lemma {:induction false} SortedCons(h: TagEntry, s: seq<TagEntry>)
    requires SortedByTag(s) && forall e :: e in s ==> TagLe(h.tag, e.tag)
    ensures SortedByTag([h] + s)
  {
    var r := [h] + s;
    forall j, k | 0 <= j < k < |r|
      ensures TagLe(r[j].tag, r[k].tag)
    {
      assert r[k] == s[k - 1];
      if j > 0 {
        assert r[j] == s[j - 1];
      } else {
        assert s[k - 1] in s;
      }
    }
  }

  /** The entries of `s` by ascending tag, entries with equal tags in store
      order. */
  function SortByTag(s: seq<TagEntry>): (r: seq<TagEntry>)
    ensures multiset(r) == multiset(s)
    ensures SortedByTag(r)
  {
    if s == [] then []
    else
      var rest := SortByTag(s[1..]);
      InsertSorted(s[0], rest);
      assert s == [s[0]] + s[1..];
      Insert(s[0], rest)
  }

  /** The query of `listTags`: the entries of `server` and the global ones,
      in store order. */
  function VisibleFrom(entries: seq<TagEntry>, server: string): (r: seq<TagEntry>)
    ensures forall e :: e in r <==> e in entries && (e.server == server || e.server == "")
  {
    if entries == [] then []
    else
      var rest := VisibleFrom(entries[1..], server);
      assert forall e :: e in entries <==> e == entries[0] || e in entries[1..];
      if entries[0].server == server || entries[0].server == "" then [entries[0]] + rest else rest
  }

  /** A listed tag; a global tag is marked with " *". */
  function Label(e: TagEntry): string {
    e.tag + (if e.server != "" then "" else " *")
  }

  function Labels(s: seq<TagEntry>): (r: seq<string>)
    ensures |r| == |s| && forall k :: 0 <= k < |s| ==> r[k] == Label(s[k])
  {
    if s == [] then [] else [Label(s[0])] + Labels(s[1..])
  }

  /** The entries `listTags` lists, in the order it lists them: exactly
      those of the server and the global ones, each as often as stored, by
      ascending tag. */
  function Listed(entries: seq<TagEntry>, server: string): (r: seq<TagEntry>)
    ensures SortedByTag(r)
    ensures forall e :: e in r <==> e in entries && (e.server == server || e.server == "")
    ensures multiset(r) == multiset(VisibleFrom(entries, server))
  {
    var r := SortByTag(VisibleFrom(entries, server));
    assert forall e :: e in r <==> e in multiset(r);
    assert forall e :: e in VisibleFrom(entries, server) <==> e in multiset(VisibleFrom(entries, server));
    r
  }

  /** `listTags`: one label per listed entry, one per line. */
  function ListTags(entries: seq<TagEntry>, server: string): Reply {
    Wrapped(Join(Labels(Listed(entries, server)), "\n"))
  }

  // ---------------------------------------------------------------------
  // Properties of the tag table.

  /** `getTag` finds `i` exactly when the entry at `i` is visible and none
      before it is. */
  lemma {:induction false} GetTagFirst(entries: seq<TagEntry>, name: string, server: string, i: nat)
    requires i < |entries| && Visible(entries[i], name, server)
    requires forall j :: 0 <= j < i ==> !Visible(entries[j], name, server)
    ensures GetTag(entries, name, server) == Some(i)
  {
  }

  /** Entries in front that are not visible do not change what is found. */
  lemma {:induction false} GetTagSkip(a: seq<TagEntry>, b: seq<TagEntry>, name: string, server: string)
    requires forall j :: 0 <= j < |a| ==> !Visible(a[j], name, server)
    ensures GetTag(a + b, name, server) == (match GetTag(b, name, server) case None => None case Some(k) => Some(|a| + k))
    ensures FoundContent(a + b, name, server) == FoundContent(b, name, server)
  {
    var ab := a + b;
    match GetTag(b, name, server)
    case None =>
      forall j | 0 <= j < |ab|
        ensures !Visible(ab[j], name, server)
      {
        if j < |a| {
          assert ab[j] == a[j];
        } else {
          assert ab[j] == b[j - |a|];
        }
      }
    case Some(k) =>
      forall j | 0 <= j < |a| + k
        ensures !Visible(ab[j], name, server)
      {
        if j >= |a| {
          assert ab[j] == b[j - |a|];
        }
      }
      GetTagFirst(ab, name, server, |a| + k);
  }

  /** After `set`, showing the tag from the same server gives the new
      content, whether the entry was updated or added. */
  lemma {:induction false} ShowAfterSet(entries: seq<TagEntry>, newId: nat, tag: string, content: string, server: string)
    requires content != []
    ensures ShowTag(AfterSet(entries, newId, tag, content, server), tag, server) == Shown(Plain(content), true)
  {
    var after := AfterSet(entries, newId, tag, content, server);
    match GetTag(entries, tag, server)
    case Some(i) =>
      GetTagFirst(after, tag, server, i);
    case None =>
      GetTagFirst(after, tag, server, |entries|);
  }

  /** `set` touches no entry of another name. */
  lemma {:induction false} SetKeepsOtherTags(entries: seq<TagEntry>, newId: nat, tag: string, content: string, server: string)
    ensures forall e: TagEntry :: e.tag != tag ==> (e in AfterSet(entries, newId, tag, content, server) <==> e in entries)
  {
    var after := AfterSet(entries, newId, tag, content, server);
    match GetTag(entries, tag, server)
    case Some(i) =>
      forall e: TagEntry | e.tag != tag
        ensures e in after <==> e in entries
      {
        if e in after {
          var k :| 0 <= k < |after| && after[k] == e;
          assert k != i && e == entries[k];
        }
        if e in entries {
          var k :| 0 <= k < |entries| && entries[k] == e;
          assert k != i && after[k] == e;
        }
      }
    case None =>
  }

  /** Where the entry found for `makeGlobal` ends up, and what precedes it:
      nothing of its name. */
  lemma {:induction false} GlobalPosition(entries: seq<TagEntry>, name: string, server: string, i: nat) returns (p: nat)
    requires GetTag(entries, name, server) == Some(i)
    ensures var after := AfterGlobal(entries, i);
            && p < |after| && after[p] == entries[i].(server := "")
            && forall j :: 0 <= j < p ==> after[j].tag != name
  {
    var found := entries[i];
    var a, b := entries[..i], entries[i + 1..];
    assert entries == a + [found] + b;
    assert forall j :: 0 <= j < |a| ==> a[j] == entries[j];
    p := RemovedPosition(a, found, b, name, server);
    var removed := RemoveLocal(entries, name, found.server);
    var after := SetServer(removed, found.id, "");
    assert after == AfterGlobal(entries, i);
    assert after[p] == found.(server := "");
  }

  /** The remove query keeps the found entry, and only other names in front
      of it. */
  lemma {:induction false} RemovedPosition(a: seq<TagEntry>, found: TagEntry, b: seq<TagEntry>, name: string, server: string)
    returns (p: nat)
    requires Visible(found, name, server)
    requires forall j :: 0 <= j < |a| ==> !Visible(a[j], name, server)
    ensures var removed := RemoveLocal(a + [found] + b, name, found.server);
            && p < |removed| && removed[p] == found
            && forall j :: 0 <= j < p ==> removed[j].tag != name
  {
    RemoveLocalAppend(a + [found], b, name, found.server);
    RemoveLocalAppend(a, [found], name, found.server);
    var ra := RemoveLocal(a, name, found.server);
    EarlierHidden(a, name, server, found.server);
    assert RemoveLocal([found], name, found.server) == [found];
    var removed := RemoveLocal(a + [found] + b, name, found.server);
    assert removed == ra + [found] + RemoveLocal(b, name, found.server);
    p := |ra|;
    forall j | 0 <= j < p
      ensures removed[j].tag != name
    {
      assert removed[j] == ra[j] && ra[j] in ra;
    }
  }

  /** The entries in front of the found one that the remove query keeps
      all have other names. */
  lemma {:induction false} EarlierHidden(a: seq<TagEntry>, name: string, server: string, keep: string)
    requires forall j :: 0 <= j < |a| ==> !Visible(a[j], name, server)
    requires keep == server || keep == ""
    ensures forall e :: e in RemoveLocal(a, name, keep) ==> e.tag != name
  {
    forall e | e in RemoveLocal(a, name, keep)
      ensures e.tag != name
    {
      var j :| 0 <= j < |a| && a[j] == e;
      assert !Visible(a[j], name, server);
    }
  }

  lemma {:induction false} RemoveLocalAppend(a: seq<TagEntry>, b: seq<TagEntry>, name: string, keep: string)
    ensures RemoveLocal(a + b, name, keep) == RemoveLocal(a, name, keep) + RemoveLocal(b, name, keep)
  {
    if a != [] {
      assert (a + b)[0] == a[0] && (a + b)[1..] == a[1..] + b;
      RemoveLocalAppend(a[1..], b, name, keep);
    } else {
      assert a + b == b;
    }
  }

  /** A tag made global shows its content from every server. */
  lemma {:induction false} GlobalShownEverywhere(entries: seq<TagEntry>, name: string, server: string, other: string)
    requires FoundContent(entries, name, server) != []
    ensures ShowTag(AfterGlobal(entries, GetTag(entries, name, server).value), name, other)
            == Shown(Plain(FoundContent(entries, name, server)), true)
  {
    var i := GetTag(entries, name, server).value;
    var after := AfterGlobal(entries, i);
    var p := GlobalPosition(entries, name, server, i);
    GetTagFirst(after, name, other, p);
  }

  /** After `makeGlobal` every entry of that name is global or belongs to the
      server of the entry that was found. */
  lemma {:induction false} GlobalLeavesOneServer(entries: seq<TagEntry>, i: nat)
    requires i < |entries|
    ensures forall e :: e in AfterGlobal(entries, i) && e.tag == entries[i].tag ==>
              e.server == "" || e.server == entries[i].server
  {
    var removed := RemoveLocal(entries, entries[i].tag, entries[i].server);
    var after := AfterGlobal(entries, i);
    forall e | e in after && e.tag == entries[i].tag
      ensures e.server == "" || e.server == entries[i].server
    {
      var k :| 0 <= k < |after| && after[k] == e;
      assert removed[k] in removed;
    }
  }

  /** `makeGlobal` touches no entry of another name. */
  lemma {:induction false} GlobalKeepsOtherTags(entries: seq<TagEntry>, i: nat)
    requires i < |entries| && UniqueIds(entries)
    ensures forall e: TagEntry :: e.tag != entries[i].tag ==> (e in AfterGlobal(entries, i) <==> e in entries)
  {
    GlobalAddsNoOtherTag(entries, i);
    GlobalDropsNoOtherTag(entries, i);
  }

  lemma {:induction false} GlobalAddsNoOtherTag(entries: seq<TagEntry>, i: nat)
    requires i < |entries| && UniqueIds(entries)
    ensures forall e: TagEntry :: e.tag != entries[i].tag && e in AfterGlobal(entries, i) ==> e in entries
  {
    var found := entries[i];
    var removed := RemoveLocal(entries, found.tag, found.server);
    var after := AfterGlobal(entries, i);
    forall e: TagEntry | e.tag != found.tag && e in after
      ensures e in entries
    {
      var k :| 0 <= k < |after| && after[k] == e;
      assert removed[k] in removed;
      var j :| 0 <= j < |entries| && entries[j] == removed[k];
      assert j != i;
    }
  }

  lemma {:induction false} GlobalDropsNoOtherTag(entries: seq<TagEntry>, i: nat)
    requires i < |entries| && UniqueIds(entries)
    ensures forall e: TagEntry :: e.tag != entries[i].tag && e in entries ==> e in AfterGlobal(entries, i)
  {
    var found := entries[i];
    var removed := RemoveLocal(entries, found.tag, found.server);
    var after := AfterGlobal(entries, i);
    forall e: TagEntry | e.tag != found.tag && e in entries
      ensures e in after
    {
      assert e in removed;
      var k :| 0 <= k < |removed| && removed[k] == e;
      var j :| 0 <= j < |entries| && entries[j] == e;
      assert j != i;
      assert after[k] == e;
    }
  }

  /** `removeTag` deletes the found document and only it. */
  lemma {:induction false} RemoveOnlyThat(entries: seq<TagEntry>, i: nat)
    requires i < |entries| && UniqueIds(entries)
    ensures forall e :: e in AfterRemove(entries, i) <==> e in entries && e.id != entries[i].id
  {
    var after := AfterRemove(entries, i);
    forall e
      ensures e in after <==> e in entries && e.id != entries[i].id
    {
      if e in after {
        var k :| 0 <= k < |after| && after[k] == e;
        if k < i {
          assert e == entries[k];
        } else {
          assert e == entries[k + 1];
        }
      }
      if e in entries && e.id != entries[i].id {
        var k :| 0 <= k < |entries| && entries[k] == e;
        if k < i {
          assert after[k] == e;
        } else {
          assert k != i && after[k - 1] == e;
        }
      }
    }
  }

  /** After `removeTag`, the tag shows the next entry of that name visible
      from the server, if any. */
  lemma {:induction false} ShowAfterRemove(entries: seq<TagEntry>, name: string, server: string)
    requires GetTag(entries, name, server).Some?
    ensures FoundContent(AfterRemove(entries, GetTag(entries, name, server).value), name, server)
            == FoundContent(entries[GetTag(entries, name, server).value + 1..], name, server)
  {
    var i := GetTag(entries, name, server).value;
    GetTagSkip(entries[..i], entries[i + 1..], name, server);
  }

  /** Saving a tag and making it global shows it from every server. */
  lemma {:induction false} SetThenGlobal(entries: seq<TagEntry>, newId: nat, tag: string, content: string, server: string, other: string)
    requires content != []
    ensures var saved := AfterSet(entries, newId, tag, content, server);
            GetTag(saved, tag, server).Some? &&
            ShowTag(AfterGlobal(saved, GetTag(saved, tag, server).value), tag, other) == Shown(Plain(content), true)
  {
    ShowAfterSet(entries, newId, tag, content, server);
    GlobalShownEverywhere(AfterSet(entries, newId, tag, content, server), tag, server, other);
  }

  /** `set` is matched in any letter case; the tag is the next token and the
      content the trimmed rest. */
  lemma {:induction false} ParseSetLine(command: string, tag: string, content: string)
    requires ToLower(command) == "set" && NoTokenBreak(command)
    requires tag != [] && IsTrimmed(tag) && NoTokenBreak(tag)
    requires content != [] && IsTrimmed(content)
    ensures ParseTagCommand(command + " " + tag + " " + content) == SetCmd(tag, content)
  {
    var rest := tag + " " + content;
    var line := command + " " + rest;
    assert line == command + " " + tag + " " + content;
    assert IsTrimmed(rest) by {
      assert rest[0] == tag[0] && rest[|rest| - 1] == content[|content| - 1];
    }
    TokenAndRest(command, rest, line);
    TokenAndRest(tag, content, rest);
    TrimOfTrimmed(tag);
    ParseSetParts(line, rest, tag, content);
  }

  lemma {:induction false} ParseSetParts(suffix: string, rest: string, tag: string, content: string)
    requires SubCommand(suffix) == "set" && Trim(From(suffix, 3)) == rest
    requires Trim(FirstToken(rest)) == tag && Trim(From(rest, |tag|)) == content
    ensures ParseTagCommand(suffix) == SetCmd(tag, content)
  {
  }

  /** `global <name>` and `remove <name>`, in any letter case. */
  lemma {:induction false} ParseNameLine(command: string, name: string)
    requires ToLower(command) == "global" || ToLower(command) == "remove"
    requires NoTokenBreak(command) && IsTrimmed(name)
    ensures ParseTagCommand(command + " " + name) ==
              if ToLower(command) == "global" then GlobalCmd(name) else RemoveCmd(name)
  {
    var line := command + " " + name;
    TokenAndRest(command, name, line);
    ParseNameParts(line, name);
  }

  lemma {:induction false} ParseNameParts(suffix: string, name: string)
    requires SubCommand(suffix) == "global" || SubCommand(suffix) == "remove"
    requires Trim(From(suffix, |SubCommand(suffix)|)) == name
    ensures ParseTagCommand(suffix) == if SubCommand(suffix) == "global" then GlobalCmd(name) else RemoveCmd(name)
  {
  }

  // ---------------------------------------------------------------------
  // The store.

  /** The id the next new document gets after `cmd`: only a valid `set`
      that finds no entry saves a new document. */
  function NextIdAfter(cmd: TagCommand, entries: seq<TagEntry>, nextId: nat, server: string): nat {
    if cmd.SetCmd? && cmd.tag != [] && cmd.content != [] && GetTag(entries, cmd.tag, server).None?
    then nextId + 1 else nextId
  }

  /** The tag collection, with the id the next new document gets. */
  class TagStore {
    var entries: seq<TagEntry>
    var nextId: nat

    ghost predicate Valid()
      reads this
    {
      UniqueIds(entries) && forall e :: e in entries ==> e.id < nextId
    }

    constructor ()
      ensures Valid() && entries == [] && nextId == 0
    {
      entries := [];
      nextId := 0;
    }

    /** `setTag`: with a tag and content, updates the entry `getTag` finds or
        saves a new one for the current server. */
    method SetTag(tag: string, content: string, server: string) returns (reply: Reply)
      requires Valid()
      modifies this
      ensures Valid()
      ensures tag == [] || content == [] ==>
                reply == Wrapped("Invalid tag") && entries == old(entries) && nextId == old(nextId)
      ensures tag != [] && content != [] ==>
                reply == Wrapped("Tag '" + tag + "' saved") &&
                entries == AfterSet(old(entries), old(nextId), tag, content, server)
      ensures nextId == NextIdAfter(SetCmd(tag, content), old(entries), old(nextId), server)
    {
      if tag == [] || content == [] {
        return Wrapped("Invalid tag");
      }
      var found := GetTag(entries, tag, server);
      match found {
        case Some(i) =>
          entries := entries[i := entries[i].(content := content)];
        case None =>
          entries := entries + [TagEntry(nextId, tag, server, content)];
          nextId := nextId + 1;
      }
      reply := Wrapped("Tag '" + tag + "' saved");
    }

    /** `makeGlobal`: drops the entries of that name on other servers than
        the found one's, then moves the found one to every server. */
    method MakeGlobal(name: string, server: string) returns (reply: Reply)
      requires Valid()
      modifies this`entries
      ensures Valid()
      ensures FoundContent(old(entries), name, server) == [] ==>
                reply == NoSuchTag(name) && entries == old(entries)
      ensures FoundContent(old(entries), name, server) != [] ==>
                reply == Wrapped("Global tag '" + name + "' set") &&
                entries == AfterGlobal(old(entries), GetTag(old(entries), name, server).value)
    {
      var found := GetTag(entries, name, server);
      if found.None? || entries[found.value].content == [] {
        return NoSuchTag(name);
      }
      var entry := entries[found.value];
      RemoveLocalKeepsUnique(entries, name, entry.server);
      entries := RemoveLocal(entries, name, entry.server);
      entries := SetServer(entries, entry.id, "");
      reply := Wrapped("Global tag '" + name + "' set");
    }

    /** `removeTag`: deletes the entry `getTag` finds. */
    method RemoveTag(name: string, server: string) returns (reply: Reply)
      requires Valid()
      modifies this`entries
      ensures Valid()
      ensures FoundContent(old(entries), name, server) == [] ==>
                reply == NoSuchTag(name) && entries == old(entries)
      ensures FoundContent(old(entries), name, server) != [] ==>
                reply == Wrapped("Tag '" + name + "' removed") &&
                entries == AfterRemove(old(entries), GetTag(old(entries), name, server).value)
    {
      var found := GetTag(entries, name, server);
      if found.None? || entries[found.value].content == [] {
        return NoSuchTag(name);
      }
      var i := found.value;
      assert forall e :: e in entries[..i] + entries[i + 1..] ==> e in entries;
      entries := entries[..i] + entries[i + 1..];
      reply := Wrapped("Tag '" + name + "' removed");
    }

    /** `process` for a message on `server`. */
    method Process(suffix: string, server: string) returns (shown: Shown)
      requires Valid()
      modifies this
      ensures Valid()
      ensures match ParseTagCommand(suffix)
              case SetCmd(t, c) =>
                (t == [] || c == [] ==> entries == old(entries) && shown == Shown(Wrapped("Invalid tag"), false)) &&
                (t != [] && c != [] ==> entries == AfterSet(old(entries), old(nextId), t, c, server) &&
                                        shown == Shown(Wrapped("Tag '" + t + "' saved"), false))
              case GlobalCmd(n) =>
                (FoundContent(old(entries), n, server) == [] ==> entries == old(entries) && shown == Shown(NoSuchTag(n), false)) &&
                (FoundContent(old(entries), n, server) != [] ==>
                   entries == AfterGlobal(old(entries), GetTag(old(entries), n, server).value) &&
                   shown == Shown(Wrapped("Global tag '" + n + "' set"), false))
              case RemoveCmd(n) =>
                (FoundContent(old(entries), n, server) == [] ==> entries == old(entries) && shown == Shown(NoSuchTag(n), false)) &&
                (FoundContent(old(entries), n, server) != [] ==>
                   entries == AfterRemove(old(entries), GetTag(old(entries), n, server).value) &&
                   shown == Shown(Wrapped("Tag '" + n + "' removed"), false))
              case ListCmd => entries == old(entries) && shown == Shown(ListTags(entries, server), false)
              case ShowCmd(n) => entries == old(entries) && shown == ShowTag(entries, n, server)
      ensures nextId == NextIdAfter(ParseTagCommand(suffix), old(entries), old(nextId), server)
    {
      var command := ParseTagCommand(suffix);
      match command
      case SetCmd(t, c) =>
        var reply := SetTag(t, c, server);
        shown := Shown(reply, false);
      case GlobalCmd(n) =>
        var reply := MakeGlobal(n, server);
        shown := Shown(reply, false);
      case RemoveCmd(n) =>
        var reply := RemoveTag(n, server);
        shown := Shown(reply, false);
      case ListCmd =>
        shown := Shown(ListTags(entries, server), false);
      case ShowCmd(n) =>
        shown := ShowTag(entries, n, server);
    }
  }
}
