/** The list of a user's drafts (waybill/application/usecase/GetUserDraftListService.java):
    the drafts the user created, optionally only those in one status, newest
    first. Java's `sorted` is stable, so drafts created at the same instant
    keep their storage order; the model sorts by insertion. */
module DraftList {
  import opened Wrappers
  import opened Seqs
  import opened Drafts
  import opened DraftMapper

  /** `GetUserDraftListCommand`: `None` status means every status. */
  datatype GetUserDraftListCommand = GetUserDraftListCommand(userId: nat, status: Option<DraftStatus>)

  function InStatus(status: DraftStatus): Draft -> bool {
    (d: Draft) => d.draftStatus == Some(status)
  }

  predicate NewestFirst(s: seq<Draft>) {
    forall i, j :: 0 <= i < j < |s| ==> s[i].createdAt >= s[j].createdAt
  }

  /** Places `d` before the first draft that is not newer than it. */
  function InsertNewest(d: Draft, s: seq<Draft>): (r: seq<Draft>)
    ensures |r| == |s| + 1
  {
    if s == [] || s[0].createdAt <= d.createdAt then [d] + s
    else [s[0]] + InsertNewest(d, s[1..])
  }

  /** The stable descending sort by creation time. */
  function SortNewestFirst(s: seq<Draft>): (r: seq<Draft>)
    ensures |r| == |s|
  {
    if s == [] then [] else InsertNewest(s[0], SortNewestFirst(s[1..]))
  }

  /** All drafts in `s` were created no later than `t`. */
  predicate NotNewerThan(s: seq<Draft>, t: int) {
    forall k :: 0 <= k < |s| ==> s[k].createdAt <= t
  }

  lemma ConsNewestFirst(x: Draft, s: seq<Draft>)
    requires NewestFirst(s) && NotNewerThan(s, x.createdAt)
    ensures NewestFirst([x] + s)
  {
    var r := [x] + s;
    forall i, j | 0 <= i < j < |r| ensures r[i].createdAt >= r[j].createdAt {
      if i > 0 {
        assert r[i] == s[i - 1] && r[j] == s[j - 1];
      } else {
        assert r[j] == s[j - 1];
      }
    }
  }

  lemma {:induction false} InsertKeepsBound(d: Draft, s: seq<Draft>, t: int)
    requires NotNewerThan(s, t) && d.createdAt <= t
    ensures NotNewerThan(InsertNewest(d, s), t)
  {
    if s != [] && s[0].createdAt > d.createdAt {
      InsertKeepsBound(d, s[1..], t);
    }
  }

  lemma {:induction false} InsertKeepsOrder(d: Draft, s: seq<Draft>)
    requires NewestFirst(s)
    ensures NewestFirst(InsertNewest(d, s))
  {
    if s == [] || s[0].createdAt <= d.createdAt {
      ConsNewestFirst(d, s);
    } else {
      InsertKeepsOrder(d, s[1..]);
      InsertKeepsBound(d, s[1..], s[0].createdAt);
      ConsNewestFirst(s[0], InsertNewest(d, s[1..]));
    }
  }

  lemma {:induction false} InsertKeepsElements(d: Draft, s: seq<Draft>)
    ensures multiset(InsertNewest(d, s)) == multiset(s) + multiset{d}
  {
    if s != [] && s[0].createdAt > d.createdAt {
      InsertKeepsElements(d, s[1..]);
      assert s == [s[0]] + s[1..];
    }
  }

  /** The sort orders newest first and keeps every draft exactly as often as
      it occurs. */
  lemma {:induction false} SortIsOrderedPermutation(s: seq<Draft>)
    ensures NewestFirst(SortNewestFirst(s))
    ensures multiset(SortNewestFirst(s)) == multiset(s)
  {
    if s != [] {
      SortIsOrderedPermutation(s[1..]);
      InsertKeepsOrder(s[0], SortNewestFirst(s[1..]));
      InsertKeepsElements(s[0], SortNewestFirst(s[1..]));
      assert s == [s[0]] + s[1..];
    }
  }

  /** The drafts of `s` created at instant `t`, in order. */
  function CreatedAt(s: seq<Draft>, t: int): seq<Draft> {
    if s == [] then [] else (if s[0].createdAt == t then [s[0]] else []) + CreatedAt(s[1..], t)
  }

  lemma {:induction false} InsertIsStable(d: Draft, s: seq<Draft>, t: int)
    ensures CreatedAt(InsertNewest(d, s), t) == (if d.createdAt == t then [d] else []) + CreatedAt(s, t)
  {
    var r := InsertNewest(d, s);
    if s == [] || s[0].createdAt <= d.createdAt {
      assert r[0] == d && r[1..] == s;
    } else {
      InsertIsStable(d, s[1..], t);
      assert r[0] == s[0] && r[1..] == InsertNewest(d, s[1..]);
      var rest := CreatedAt(s[1..], t);
      assert CreatedAt(s, t) == (if s[0].createdAt == t then [s[0]] else []) + rest;
      if d.createdAt == t {
        assert CreatedAt(r, t) == [] + ([d] + rest);
      } else if s[0].createdAt == t {
        assert CreatedAt(r, t) == [s[0]] + rest;
      } else {
        assert CreatedAt(r, t) == [] + rest;
      }
    }
  }

  /** Stability: the drafts created at any one instant come out in the order
      they went in. */
  lemma {:induction false} SortIsStable(s: seq<Draft>, t: int)
    ensures CreatedAt(SortNewestFirst(s), t) == CreatedAt(s, t)
  {
    if s != [] {
      SortIsStable(s[1..], t);
      InsertIsStable(s[0], SortNewestFirst(s[1..]), t);
    }
  }

  /** The sort neither adds nor drops a draft. */
  lemma SortKeepsMembers(s: seq<Draft>)
    ensures forall x :: x in SortNewestFirst(s) <==> x in s
  {
    SortIsOrderedPermutation(s);
    forall x ensures x in SortNewestFirst(s) <==> x in s {
      assert x in SortNewestFirst(s) <==> x in multiset(SortNewestFirst(s));
      assert x in s <==> x in multiset(s);
    }
  }

  /** The drafts of one user, in one status when a status is given. */
  function Selected(ds: seq<Draft>, cmd: GetUserDraftListCommand): (r: seq<Draft>)
    ensures forall x :: x in r
                        <==> x in ds && x.draftCreatorId == Some(cmd.userId)
                             && (cmd.status.None? || x.draftStatus == cmd.status)
  {
    var mine := FindByCreator(ds, cmd.userId);
    if cmd.status.Some? then Filter(mine, InStatus(cmd.status.value)) else mine
  }

  /** `findDrafts`. */
  function FindDrafts(ds: seq<Draft>, cmd: GetUserDraftListCommand): seq<Draft> {
    SortNewestFirst(Selected(ds, cmd))
  }

  /** The list holds exactly the user's drafts in the requested status,
      newest first. */
  lemma FindDraftsContents(ds: seq<Draft>, cmd: GetUserDraftListCommand)
    ensures NewestFirst(FindDrafts(ds, cmd))
    ensures forall x :: x in FindDrafts(ds, cmd)
                        <==> x in ds && x.draftCreatorId == Some(cmd.userId)
                             && (cmd.status.None? || x.draftStatus == cmd.status)
  {
    SortIsOrderedPermutation(Selected(ds, cmd));
    SortKeepsMembers(Selected(ds, cmd));
  }

  /** The list is a reordering of the stored selection, nothing added or
      dropped. */
  lemma FindDraftsIsPermutation(ds: seq<Draft>, cmd: GetUserDraftListCommand)
    ensures multiset(FindDrafts(ds, cmd)) == multiset(Selected(ds, cmd))
  {
    SortIsOrderedPermutation(Selected(ds, cmd));
  }

  /** `get`: the list mapped to responses, one per draft in the same order. */
  function Get(ds: seq<Draft>, cmd: GetUserDraftListCommand): (r: seq<DraftResponse>)
    ensures |r| == |FindDrafts(ds, cmd)|
    ensures forall i :: 0 <= i < |r| ==> r[i] == ToResponse(FindDrafts(ds, cmd)[i])
  {
    var drafts := FindDrafts(ds, cmd);
    seq(|drafts|, i requires 0 <= i < |drafts| => ToResponse(drafts[i]))
  }
}
