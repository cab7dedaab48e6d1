/**
 * The video table and the row-level queries the router issues against it, with the table
 * held as a sequence of rows in store order.
 */
module VideoTable {
  import opened Nullable

  /** A row of the video table (timestamps are not modelled). */
  datatype Video = Video(
    id: string,
    userId: string,
    title: string,
    sharing: bool,
    deleteAfterLinkExpires: bool,
    shareLinkExpiresAt: Option<int>)

  /** The row `create` inserts for an owner and a title, with the remaining columns at their defaults. */
  function NewVideo(id: string, owner: string, title: string): Video {
    Video(id, owner, title, false, false, None)
  }

  /** The primary key is unique. */
  ghost predicate UniqueIds(rows: seq<Video>) {
    forall i, j :: 0 <= i < j < |rows| ==> rows[i].id != rows[j].id
  }

  predicate HasId(rows: seq<Video>, id: string) {
    exists i :: 0 <= i < |rows| && rows[i].id == id
  }

  /** `findUnique({ where: { id } })`. */
  function Find(rows: seq<Video>, id: string): (r: Option<Video>)
    ensures r.None? <==> !HasId(rows, id)
    ensures r.Some? ==> r.value in rows && r.value.id == id
  {
    if |rows| == 0 then None
    else if rows[0].id == id then Some(rows[0])
    else
      assert forall i :: 1 <= i < |rows| ==> rows[i] == rows[1..][i - 1];
      Find(rows[1..], id)
  }

  /** With a unique primary key, `findUnique` returns the one row holding that id. */
  lemma FindUnique(rows: seq<Video>, k: nat)
    requires UniqueIds(rows) && k < |rows|
    ensures Find(rows, rows[k].id) == Some(rows[k])
  {
  }

  /** `findMany({ where: { userId: owner } })`: the owner's rows, in store order. */
  function OwnedBy(rows: seq<Video>, owner: string): (r: seq<Video>)
    ensures |r| <= |rows|
    ensures forall v :: v in r <==> v in rows && v.userId == owner
  {
    if |rows| == 0 then []
    else (if rows[0].userId == owner then [rows[0]] else []) + OwnedBy(rows[1..], owner)
  }

  /** Filtering distributes over concatenation: the owner's rows keep their relative store order. */
  lemma {:induction false} OwnedByConcat(xs: seq<Video>, ys: seq<Video>, owner: string)
    ensures OwnedBy(xs + ys, owner) == OwnedBy(xs, owner) + OwnedBy(ys, owner)
  {
    if |xs| > 0 {
      assert (xs + ys)[1..] == xs[1..] + ys;
      OwnedByConcat(xs[1..], ys, owner);
    } else {
      assert xs + ys == ys;
    }
  }

  /** The scope predicate of every owner-scoped update and delete: `{ id, userId: owner }`. */
  predicate Matches(v: Video, id: string, owner: string) {
    v.id == id && v.userId == owner
  }

  predicate NoMatch(rows: seq<Video>, id: string, owner: string) {
    forall i :: 0 <= i < |rows| ==> !Matches(rows[i], id, owner)
  }

  /** The `count` an owner-scoped `updateMany` or `deleteMany` reports. */
  function MatchCount(rows: seq<Video>, id: string, owner: string): (n: nat)
    ensures n <= |rows|
    ensures n == 0 <==> NoMatch(rows, id, owner)
  {
    if |rows| == 0 then 0
    else
      assert forall i :: 1 <= i < |rows| ==> rows[i] == rows[1..][i - 1];
      (if Matches(rows[0], id, owner) then 1 else 0) + MatchCount(rows[1..], id, owner)
  }

  /** A unique primary key lets an owner-scoped statement touch at most one row. */
  lemma {:induction false} MatchCountAtMostOne(rows: seq<Video>, id: string, owner: string)
    requires UniqueIds(rows)
    ensures MatchCount(rows, id, owner) <= 1
  {
    if |rows| > 0 {
      MatchCountAtMostOne(rows[1..], id, owner);
      if Matches(rows[0], id, owner) {
        assert NoMatch(rows[1..], id, owner) by {
          forall i | 0 <= i < |rows[1..]|
            ensures !Matches(rows[1..][i], id, owner)
          {
            assert rows[1..][i] == rows[i + 1];
          }
        }
      }
    }
  }

  /** One column update issued by an owner-scoped `updateMany`. */
  datatype Patch =
    | Sharing(sharing: bool)
    | DeleteAfterLinkExpires(deleteAfterLinkExpires: bool)
    | ShareLinkExpiresAt(shareLinkExpiresAt: Option<int>)
    | Title(title: string)

  function Apply(v: Video, p: Patch): Video {
    match p
    case Sharing(b) => v.(sharing := b)
    case DeleteAfterLinkExpires(b) => v.(deleteAfterLinkExpires := b)
    case ShareLinkExpiresAt(at) => v.(shareLinkExpiresAt := at)
    case Title(t) => v.(title := t)
  }

  /** `updateMany({ where: { id, userId: owner }, data })`: the table afterwards. */
  function UpdateMany(rows: seq<Video>, id: string, owner: string, p: Patch): seq<Video> {
    seq(|rows|, i requires 0 <= i < |rows| => if Matches(rows[i], id, owner) then Apply(rows[i], p) else rows[i])
  }

  /**
   * A scoped update never changes a row's id or owner, so it keeps the key unique and
   * leaves the owner's set of video ids as it was.
   */
  lemma UpdateKeepsKeysAndOwners(rows: seq<Video>, id: string, owner: string, p: Patch)
    ensures |UpdateMany(rows, id, owner, p)| == |rows|
    ensures forall i :: 0 <= i < |rows| ==>
      UpdateMany(rows, id, owner, p)[i].id == rows[i].id && UpdateMany(rows, id, owner, p)[i].userId == rows[i].userId
    ensures UniqueIds(rows) ==> UniqueIds(UpdateMany(rows, id, owner, p))
  {
  }

  /** `deleteMany({ where: { id, userId: owner } })`: the table afterwards, in store order. */
  function DeleteMany(rows: seq<Video>, id: string, owner: string): (r: seq<Video>)
    ensures |r| == |rows| - MatchCount(rows, id, owner)
    ensures forall v :: v in r <==> v in rows && !Matches(v, id, owner)
  {
    if |rows| == 0 then []
    else (if Matches(rows[0], id, owner) then [] else [rows[0]]) + DeleteMany(rows[1..], id, owner)
  }

  /** The rows a scoped delete leaves keep their store order: deletion distributes over concatenation. */
  lemma {:induction false} DeleteManyConcat(xs: seq<Video>, ys: seq<Video>, id: string, owner: string)
    ensures DeleteMany(xs + ys, id, owner) == DeleteMany(xs, id, owner) + DeleteMany(ys, id, owner)
  {
    if |xs| > 0 {
      var head := if Matches(xs[0], id, owner) then [] else [xs[0]];
      assert (xs + ys)[0] == xs[0];
      assert (xs + ys)[1..] == xs[1..] + ys;
      assert DeleteMany(xs + ys, id, owner) == head + DeleteMany(xs[1..] + ys, id, owner);
      assert DeleteMany(xs, id, owner) == head + DeleteMany(xs[1..], id, owner);
      DeleteManyConcat(xs[1..], ys, id, owner);
      assert head + (DeleteMany(xs[1..], id, owner) + DeleteMany(ys, id, owner))
          == (head + DeleteMany(xs[1..], id, owner)) + DeleteMany(ys, id, owner);
    } else {
      assert xs + ys == ys;
    }
  }

  /** A scoped delete keeps the key unique. */
  lemma {:induction false} DeleteManyKeepsUnique(rows: seq<Video>, id: string, owner: string)
    requires UniqueIds(rows)
    ensures UniqueIds(DeleteMany(rows, id, owner))
  {
    if |rows| > 0 {
      var rest := DeleteMany(rows[1..], id, owner);
      assert UniqueIds(rows[1..]) by {
        forall i, j | 0 <= i < j < |rows[1..]| ensures rows[1..][i].id != rows[1..][j].id {
          assert rows[1..][i] == rows[i + 1] && rows[1..][j] == rows[j + 1];
        }
      }
      DeleteManyKeepsUnique(rows[1..], id, owner);
      if !Matches(rows[0], id, owner) {
        var r := [rows[0]] + rest;
        forall i, j | 0 <= i < j < |r| ensures r[i].id != r[j].id {
          if i == 0 {
            assert r[j] in rest;
            assert r[j] in rows[1..];
            var k :| 0 <= k < |rows[1..]| && rows[1..][k] == r[j];
            assert rows[1..][k] == rows[k + 1];
          } else {
            assert r[i] == rest[i - 1] && r[j] == rest[j - 1];
          }
        }
      }
    }
  }
}
