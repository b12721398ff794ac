/** The storage services the Functions app talks to, reduced to what its code
    relies on: a table is a map from row address to record with a version token
    (ETag) that every write renews and that a conditional update must match; a
    queue is an append-only sequence of messages; a blob container is a map from
    blob name to size. */
module Storage {
  import opened Wrappers
  import opened Text
  import opened Entities

  class Table<T> {
    var rows: map<Key, Row<T>>
    /** The version token the next write will stamp. */
    var nextTag: nat

    /** Every stored token was issued before `nextTag`, so a fresh stamp
        differs from every token a reader may hold. */
    ghost predicate Valid()
      reads this
    {
      forall k :: k in rows ==> rows[k].etag < nextTag
    }

    constructor ()
      ensures Valid() && rows == map[]
    {
      rows := map[];
      nextTag := 0;
    }

    /** `AddEntityAsync`: inserts a new row; fails when the address is taken. */
    method Add(k: Key, v: T) returns (ok: bool)
      requires Valid()
      modifies this
      ensures Valid()
      ensures ok <==> k !in old(rows)
      ensures rows == if ok then old(rows)[k := Row(v, old(nextTag))] else old(rows)
    {
      ok := k !in rows;
      if ok {
        rows := rows[k := Row(v, nextTag)];
        nextTag := nextTag + 1;
      }
    }

    /** `UpdateEntityAsync(e, etag, TableUpdateMode.Replace)`: replaces the row
        only when it still carries the token `etag`; afterwards that token is
        stale. */
    method UpdateIfMatch(k: Key, v: T, etag: nat) returns (ok: bool)
      requires Valid()
      modifies this
      ensures Valid()
      ensures ok <==> k in old(rows) && old(rows)[k].etag == etag
      ensures rows == if ok then old(rows)[k := Row(v, old(nextTag))] else old(rows)
      ensures ok ==> rows[k].etag != etag
    {
      ok := k in rows && rows[k].etag == etag;
      if ok {
        rows := rows[k := Row(v, nextTag)];
        nextTag := nextTag + 1;
      }
    }

    /** An unconditional write by another client (an upsert); it renews the
        row's token. */
    method Upsert(k: Key, v: T)
      requires Valid()
      modifies this
      ensures Valid()
      ensures rows == old(rows)[k := Row(v, old(nextTag))]
      ensures k in old(rows) ==> rows[k].etag != old(rows)[k].etag
    {
      rows := rows[k := Row(v, nextTag)];
      nextTag := nextTag + 1;
    }

    /** `DeleteEntityAsync`: removes the row; a missing row is not an error. */
    method Delete(k: Key)
      requires Valid()
      modifies this
      ensures Valid()
      ensures rows == old(rows) - {k}
    {
      rows := rows - {k};
    }
  }

  class Queue<M> {
    var messages: seq<M>

    constructor ()
      ensures messages == []
    {
      messages := [];
    }

    /** `SendMessageAsync`; `delivered` is false when the queue service
        fails the call, which then leaves the queue as it was. */
    method Send(m: M, delivered: bool) returns (ok: bool)
      modifies this
      ensures ok == delivered
      ensures messages == if delivered then old(messages) + [m] else old(messages)
    {
      ok := delivered;
      if delivered {
        messages := messages + [m];
      }
    }
  }

  /** The URL of a blob: `https://{host}/{container}/{name}`. */
  function BlobUrl(host: string, container: string, name: string): string {
    "https://" + host + "/" + container + "/" + name
  }

  class BlobContainer {
    /** The blob service endpoint's host, from the connection string. */
    const host: string
    const name: string
    /** Blob name to size in bytes. */
    var blobs: map<string, nat>

    constructor (host: string, name: string)
      ensures this.host == host && this.name == name && blobs == map[]
    {
      this.host := host;
      this.name := name;
      blobs := map[];
    }

    /** `UploadAsync(stream)` without overwrite: fails when the name is taken. */
    method Upload(blob: string, size: nat) returns (ok: bool)
      modifies this
      ensures ok <==> blob !in old(blobs)
      ensures blobs == if ok then old(blobs)[blob := size] else old(blobs)
    {
      ok := blob !in blobs;
      if ok {
        blobs := blobs[blob := size];
      }
    }
  }

  /** A host, container or blob name that stays one segment of a URL's path. */
  predicate IsSegment(s: string) {
    '/' !in s && '?' !in s && '#' !in s && ':' !in s
  }

  /** A non-empty host that stays one segment of a URL. */
  predicate IsHost(s: string) {
    s != "" && IsSegment(s)
  }

  /** The file name read back from a blob's URL is the blob's name: the
      image-processing message names the blob that was uploaded. */
  lemma BlobUrlFileName(host: string, container: string, blob: string)
    requires IsHost(host) && IsSegment(container) && IsSegment(blob)
    ensures LocalPath(BlobUrl(host, container, blob)) == Some("/" + container + "/" + blob)
    ensures FileName("/" + container + "/" + blob) == blob
  {
    var tail := "/" + container + "/" + blob;
    var after := host + tail;
    var url := BlobUrl(host, container, blob);
    assert url == "https://" + after;
    SchemeOfBlobUrl(after);
    FirstSlashAfterHost(host, tail);
    assert after[|host|..] == tail;
    NoQueryInTail(container, blob);
    HttpsIsScheme(url[..5]);
    LocalPathOfParts(url, 5, after, |host|, tail);
    FileNameOfTail(container, blob);
  }

  lemma HttpsIsScheme(s: string)
    requires s == "https"
    ensures IsScheme(s)
  {
    assert forall j :: 0 <= j < |s| ==> IsAsciiLetter(s[j]);
  }

  lemma SchemeOfBlobUrl(after: string)
    ensures var url := "https://" + after;
      IndexOfAny(url, {':'}) == Some(5) && url[..5] == "https" && url[6..] == "//" + after
  {
    var url := "https://" + after;
    assert url[5] == ':';
    assert forall j :: 0 <= j < 5 ==> url[j] == "https"[j];
  }

  lemma FirstSlashAfterHost(host: string, tail: string)
    requires IsSegment(host) && |tail| > 0 && tail[0] == '/'
    ensures IndexOfAny(host + tail, {'/', '?', '#'}) == Some(|host|)
  {
    var after := host + tail;
    assert after[|host|] == '/';
    forall j | 0 <= j < |host| ensures after[j] !in {'/', '?', '#'} {
      assert after[j] == host[j];
    }
  }

  lemma NoQueryInTail(container: string, blob: string)
    requires IsSegment(container) && IsSegment(blob)
    ensures IndexOfAny("/" + container + "/" + blob, {'?', '#'}).None?
  {
    var tail := "/" + container + "/" + blob;
    forall j | 0 <= j < |tail| ensures tail[j] !in {'?', '#'} {
      if j == 0 {
      } else if j <= |container| {
        assert tail[j] == container[j - 1];
      } else if j > |container| + 1 {
        assert tail[j] == blob[j - |container| - 2];
      }
    }
  }

  lemma FileNameOfTail(container: string, blob: string)
    requires IsSegment(blob)
    ensures FileName("/" + container + "/" + blob) == blob
  {
    var tail := "/" + container + "/" + blob;
    assert tail[|container| + 1] == '/';
    forall j | |container| + 1 < j < |tail| ensures tail[j] != '/' {
      assert tail[j] == blob[j - |container| - 2];
    }
    assert LastIndexOf(tail, '/') == Some(|container| + 1);
    assert tail[|container| + 2..] == blob;
  }

  /** `table.QueryAsync(x => x.PartitionKey == partition && pred(x))` drained
      into a list: every row of the partition that satisfies `pred`, each
      exactly once, in the order the service enumerates them (left open here). */
  method QueryWhere<T(==)>(rows: map<Key, Row<T>>, partition: string, pred: T -> bool)
    returns (items: seq<Listed<T>>)
    ensures forall l :: l in items ==>
      var k := Key(partition, l.rowKey);
      k in rows && rows[k].value == l.entity && pred(l.entity)
    ensures forall k :: k in rows && k.partition == partition && pred(rows[k].value) ==>
      multiset(items)[Listed(k.rowKey, rows[k].value)] == 1
    ensures forall i, j :: 0 <= i < j < |items| ==> items[i].rowKey != items[j].rowKey
  {
    items := [];
    var pending := rows.Keys;
    while pending != {}
      invariant pending <= rows.Keys
      invariant forall l :: l in items ==>
        var k := Key(partition, l.rowKey);
        k in rows && k !in pending && rows[k].value == l.entity && pred(l.entity)
      invariant forall k :: k in rows && k !in pending && k.partition == partition && pred(rows[k].value) ==>
        multiset(items)[Listed(k.rowKey, rows[k].value)] == 1
      invariant forall i, j :: 0 <= i < j < |items| ==> items[i].rowKey != items[j].rowKey
      decreases pending
    {
      var k :| k in pending;
      if k.partition == partition && pred(rows[k].value) {
        var l := Listed(k.rowKey, rows[k].value);
        assert l !in items;
        items := items + [l];
      }
      pending := pending - {k};
    }
  }
}
