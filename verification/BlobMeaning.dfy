/** What a listing shows for each blob, and how many entries a client gets for the page size it asks for. */
module BlobMeaning {
  import opened Bytes
  import opened ByteOrder
  import opened Strings
  import opened BlobListing

  /** Without a delimiter, or with none behind the prefix, a blob is listed under its own name. */
  lemma ListedItself(q: Query, name: bytes)
    requires q.prefix <= name
    requires q.delimiter == [] || forall j | 0 <= j :: !OccursAt(name[|q.prefix|..], q.delimiter, j)
    ensures KeyOf(q, name) == name && !IsDirectory(q, name)
  {
  }

  /** Otherwise it is listed under its name up to and with the first delimiter behind the prefix. */
  lemma ListedUnderDirectory(q: Query, dir: bytes, tail: bytes)
    requires q.delimiter != []
    requires forall j | 0 <= j < |dir| :: !OccursAt(dir + q.delimiter + tail, q.delimiter, j)
    ensures var (name, entry) := (q.prefix + (dir + q.delimiter + tail), q.prefix + (dir + q.delimiter));
            KeyOf(q, name) == entry && IsDirectory(q, entry)
  {
    var rest := dir + q.delimiter + tail;
    var name := q.prefix + rest;
    assert name[|q.prefix|..] == rest;
    assert rest[|dir|..|dir| + |q.delimiter|] == q.delimiter;
    assert OccursAt(rest, q.delimiter, |dir|);
    assert Cut(q, name) == |dir|;
    assert rest[..|dir| + |q.delimiter|] == dir + q.delimiter;
    KeyKind(q, name);
  }

  /** A page's blobs and directories are its entries, each on one side, in order. */
  lemma {:induction false} PageSplits(q: Query, entries: seq<bytes>)
    ensures forall k :: k in Blobs(q, entries) <==> k in entries && !IsDirectory(q, k)
    ensures forall k :: k in Directories(q, entries) <==> k in entries && IsDirectory(q, k)
    ensures |Blobs(q, entries)| + |Directories(q, entries)| == |entries|
    ensures Increasing(entries) ==> Increasing(Blobs(q, entries)) && Increasing(Directories(q, entries))
    decreases |entries|
  {
    hide IsDirectory, Increasing;
    if entries == [] {
      NoneIncreasing();
    } else {
      var k := |entries| - 1;
      PageSplits(q, entries[..k]);
      assert entries == entries[..k] + [entries[k]];
      if Increasing(entries) {
        LastIsGreatest(entries);
        GreaterAppends(Blobs(q, entries[..k]), entries[k]);
        GreaterAppends(Directories(q, entries[..k]), entries[k]);
        assert Blobs(q, entries[..k]) + [] == Blobs(q, entries[..k]);
        assert Directories(q, entries[..k]) + [] == Directories(q, entries[..k]);
      }
    }
  }

  lemma NoneIncreasing()
    ensures Increasing([])
  {
  }

  lemma LastIsGreatest(xs: seq<bytes>)
    requires Increasing(xs) && xs != []
    ensures var k := |xs| - 1; Increasing(xs[..k]) && forall x | x in xs[..k] :: Lt(x, xs[k])
  {
  }

  lemma GreaterAppends(xs: seq<bytes>, x: bytes)
    requires Increasing(xs) && forall y | y in xs :: Lt(y, x)
    ensures Increasing(xs + [x])
  {
  }

  /** A request for 1 to 5000 entries gets that many, or all that are left; any other request gets 5000. */
  lemma PageSizes(q: Query, blobs: set<bytes>, resume: bytes, maxResults: int)
    ensures var size := if 1 <= maxResults <= 5000 then maxResults else 5000;
            var (page, left) := (Page(Listing(q, blobs), resume, Clamp(maxResults)), Rest(Listing(q, blobs), resume));
            page <= left && |page| == if |left| < size then |left| else size
  {
    hide Listing, Rest;
  }
}
