/** Timing the satellite's log: every record is stamped from the card alone, backwards per boot. */
module EspTime {
  import opened Common

  /** One record of the card: its number, the boot that wrote it, uptime, its own time if the clock
      was set, and the unit frame it carries. */
  datatype Rec = Rec(num: int, boot: int, up: int, ts: Option<int>, frame: seq<int>)

  /** A record's verdict: stamped, never to be stamped, or still waiting for an anchor. */
  datatype Stamp = At(ts: int) | Never | Open

  /** A record that is done with, and its time unless it is to be skipped. */
  datatype Timed = Timed(rec: Rec, ts: Option<int>)

  // ----- What a stamp is -----------------------------------------------------------------------

  datatype Anchor = Anchor(ts: int, up: int)

  /** The first stamped record of `boot`. */
  function FirstAnchor(recs: seq<Rec>, boot: int): Option<Anchor> {
    if recs == [] then None
    else if recs[0].boot == boot && recs[0].ts.Some? then Some(Anchor(recs[0].ts.value, recs[0].up))
    else FirstAnchor(recs[1..], boot)
  }

  predicate OtherBoot(recs: seq<Rec>, boot: int) {
    exists i :: 0 <= i < |recs| && recs[i].boot != boot
  }

  /** The verdict on a record given the records after it. */
  function StampOf(r: Rec, later: seq<Rec>, current: int, final: bool): Stamp {
    var anchor := FirstAnchor(later, r.boot);
    if r.ts.Some? then At(r.ts.value)
    else if anchor.Some? then At(anchor.value.ts - (anchor.value.up - r.up))
    else if OtherBoot(later, r.boot) || (final && r.boot != current) then Never
    else Open
  }

  function StampAt(buf: seq<Rec>, i: nat, current: int, final: bool): Stamp
    requires i < |buf|
  {
    StampOf(buf[i], buf[i + 1..], current, final)
  }

  /** How many leading records are not open. */
  function DoneCount(buf: seq<Rec>, current: int, final: bool): (n: nat)
    ensures n <= |buf|
    ensures forall i :: 0 <= i < n ==> !StampAt(buf, i, current, final).Open?
    ensures n < |buf| ==> StampAt(buf, n, current, final).Open?
  {
    if buf == [] || StampAt(buf, 0, current, final).Open? then 0
    else
      var m := DoneCount(buf[1..], current, final);
      assert forall i :: 0 < i < |buf| ==> buf[1..][i..] == buf[i + 1..];
      assert forall i :: 0 < i < |buf| ==> StampAt(buf[1..], i - 1, current, final) == StampAt(buf, i, current, final);
      m + 1
  }

  function TimedOf(r: Rec, s: Stamp): Timed {
    Timed(r, if s.At? then Some(s.ts) else None)
  }

  /** The stamped records of a range of the buffer, in order. */
  function TimedRange(buf: seq<Rec>, lo: nat, hi: nat, current: int, final: bool): (t: seq<Timed>)
    requires lo <= hi <= |buf|
    ensures |t| == hi - lo
    ensures forall i :: 0 <= i < hi - lo ==> t[i] == TimedOf(buf[lo + i], StampAt(buf, lo + i, current, final))
  {
    seq(hi - lo, i requires 0 <= i < hi - lo => TimedOf(buf[lo + i], StampAt(buf, lo + i, current, final)))
  }

  datatype Resolved = Resolved(done: seq<Timed>, rest: seq<Rec>)

  function Resolution(buf: seq<Rec>, current: int, final: bool): Resolved {
    var n := DoneCount(buf, current, final);
    Resolved(TimedRange(buf, 0, n, current, final), buf[n..])
  }

  // ----- The source's backward pass ------------------------------------------------------------

  function Boots(recs: seq<Rec>): set<int> {
    set i | 0 <= i < |recs| :: recs[i].boot
  }

  /** Time the buffered records in one backward pass over an anchor table and the boots seen. */
  method Resolve(buf: seq<Rec>, current: int, final: bool) returns (r: Resolved)
    ensures r == Resolution(buf, current, final)
  {
    var anchors: map<int, Anchor> := map[];
    var laterBoots: set<int> := {};
    var timed := new Stamp[|buf|](_ => Open);
    var i := |buf|;
    while i > 0
      invariant 0 <= i <= |buf|
      invariant forall b :: b in anchors <==> FirstAnchor(buf[i..], b).Some?
      invariant forall b :: b in anchors ==> Some(anchors[b]) == FirstAnchor(buf[i..], b)
      invariant laterBoots == Boots(buf[i..])
      invariant forall j :: i <= j < |buf| ==> timed[j] == StampAt(buf, j, current, final)
    {
      i := i - 1;
      var rec := buf[i];
      assert buf[i..] == [rec] + buf[i + 1..];
      assert OtherBoot(buf[i + 1..], rec.boot) <==> laterBoots - {rec.boot} != {} by {
        BootsOther(buf[i + 1..], rec.boot);
      }
      if rec.ts.Some? {
        anchors := anchors[rec.boot := Anchor(rec.ts.value, rec.up)];
        timed[i] := At(rec.ts.value);
      } else if rec.boot in anchors {
        timed[i] := At(anchors[rec.boot].ts - (anchors[rec.boot].up - rec.up));
      } else if laterBoots - {rec.boot} != {} || (final && rec.boot != current) {
        timed[i] := Never;
      } else {
        timed[i] := Open;
      }
      laterBoots := laterBoots + {rec.boot};
      BootsStep(buf, i);
    }
    assert buf[0..] == buf;
    var n := 0;
    while n < |buf| && !timed[n].Open?
      invariant 0 <= n <= |buf|
      invariant forall j :: 0 <= j < n ==> !timed[j].Open?
    {
      n := n + 1;
    }
    DoneCountUnique(buf, current, final, n);
    var done := seq(n, k requires 0 <= k < n && n <= timed.Length && n <= |buf| reads timed => TimedOf(buf[k], timed[k]));
    r := Resolved(done, buf[n..]);
    assert done == TimedRange(buf, 0, n, current, final);
  }

  lemma BootsStep(buf: seq<Rec>, i: nat)
    requires i < |buf|
    ensures Boots(buf[i..]) == Boots(buf[i + 1..]) + {buf[i].boot}
  {
    var all, later := buf[i..], buf[i + 1..];
    forall b | b in Boots(later)
      ensures b in Boots(all)
    {
      var k :| 0 <= k < |later| && later[k].boot == b;
      assert all[k + 1].boot == b;
    }
    forall b | b in Boots(all)
      ensures b in Boots(later) + {buf[i].boot}
    {
      var k :| 0 <= k < |all| && all[k].boot == b;
      if k > 0 {
        assert later[k - 1].boot == b;
      }
    }
    assert all[0].boot == buf[i].boot;
  }

  lemma BootsOther(recs: seq<Rec>, boot: int)
    ensures OtherBoot(recs, boot) <==> Boots(recs) - {boot} != {}
  {
    if OtherBoot(recs, boot) {
      var i :| 0 <= i < |recs| && recs[i].boot != boot;
      assert recs[i].boot in Boots(recs) - {boot};
    }
    if Boots(recs) - {boot} != {} {
      var b :| b in Boots(recs) - {boot};
      assert exists i :: 0 <= i < |recs| && recs[i].boot == b;
    }
  }

  lemma DoneCountUnique(buf: seq<Rec>, current: int, final: bool, n: nat)
    requires n <= |buf|
    requires forall i :: 0 <= i < n ==> !StampAt(buf, i, current, final).Open?
    requires n < |buf| ==> StampAt(buf, n, current, final).Open?
    ensures n == DoneCount(buf, current, final)
  {
    var m := DoneCount(buf, current, final);
  }

  // ----- Independence of the page split --------------------------------------------------------

  /** A boot's records are never interrupted by another boot's. */
  predicate Contiguous(recs: seq<Rec>) {
    forall i, j, k :: 0 <= i < j < k < |recs| && recs[i].boot == recs[k].boot ==> recs[j].boot == recs[i].boot
  }

  /** What follows record `m` of the card is honest about the running boot told at `m`: later records,
      and the boot running at the end, are of that boot or of one not seen before. */
  predicate BootHonest(card: seq<Rec>, m: nat, boot: int, last: int)
    requires m <= |card|
  {
    && (forall j :: m <= j < |card| ==> card[j].boot == boot || card[j].boot !in Boots(card[..m]))
    && (last == boot || last !in Boots(card[..m]))
  }

  lemma {:induction false} AnchorMember(recs: seq<Rec>, boot: int)
    ensures FirstAnchor(recs, boot).Some? ==> exists i :: 0 <= i < |recs| && recs[i].boot == boot && recs[i].ts.Some?
    ensures FirstAnchor(recs, boot).None? ==> forall i :: 0 <= i < |recs| ==> recs[i].boot != boot || recs[i].ts.None?
  {
    if recs != [] && !(recs[0].boot == boot && recs[0].ts.Some?) {
      AnchorMember(recs[1..], boot);
      assert forall i :: 0 < i < |recs| ==> recs[i] == recs[1..][i - 1];
    }
  }

  lemma {:induction false} AnchorAppend(recs: seq<Rec>, more: seq<Rec>, boot: int)
    ensures FirstAnchor(recs + more, boot) ==
            if FirstAnchor(recs, boot).Some? then FirstAnchor(recs, boot) else FirstAnchor(more, boot)
  {
    if recs == [] {
      assert recs + more == more;
    } else {
      AnchorAppend(recs[1..], more, boot);
      assert (recs + more)[1..] == recs[1..] + more;
    }
  }

  /** A verdict reached on what the card showed up to `m` stands on the whole card. */
  lemma VerdictStands(card: seq<Rec>, m: nat, i: nat, boot: int, final: bool, last: int)
    requires i < m <= |card| && Contiguous(card)
    requires final ==> BootHonest(card, m, boot, last)
    requires !StampAt(card[..m], i, boot, final).Open?
    ensures StampAt(card, i, last, true) == StampAt(card[..m], i, boot, final)
  {
    var r, later, more := card[i], card[i + 1..m], card[m..];
    assert card[..m][i + 1..] == later;
    assert card[i + 1..] == later + more;
    AnchorAppend(later, more, r.boot);
    if StampAt(card[..m], i, boot, final).Never? {
      forall l | 0 <= l < |more|
        ensures more[l].boot != r.boot
      {
        if OtherBoot(later, r.boot) {
          var k :| 0 <= k < |later| && later[k].boot != r.boot;
          assert card[i + 1 + k].boot != r.boot && more[l] == card[m + l];
        } else {
          assert card[..m][i].boot in Boots(card[..m]) && more[l] == card[m + l];
        }
      }
      AnchorMember(more, r.boot);
      if OtherBoot(later, r.boot) {
        var k :| 0 <= k < |later| && later[k].boot != r.boot;
        assert (later + more)[k].boot != r.boot;
      } else {
        assert card[..m][i].boot in Boots(card[..m]);
      }
    }
  }

  /** A verdict depends only on the record and what follows it. */
  lemma StampSuffix(buf: seq<Rec>, c: nat, i: nat, current: int, final: bool)
    requires c <= i < |buf|
    ensures StampAt(buf[c..], i - c, current, final) == StampAt(buf, i, current, final)
  {
    assert buf[c..][i - c + 1..] == buf[i + 1..];
  }

  datatype Page = Page(recs: seq<Rec>, boot: int)

  function Flatten(pages: seq<Page>): seq<Rec> {
    if pages == [] then [] else pages[0].recs + Flatten(pages[1..])
  }

  /** Page by page with the carried buffer; the last page is final. */
  function Feed(buf: seq<Rec>, pages: seq<Page>): Resolved
    requires pages != []
    decreases |pages|
  {
    var r := Resolution(buf + pages[0].recs, pages[0].boot, |pages| == 1);
    if |pages| == 1 then r
    else
      var next := Feed(r.rest, pages[1..]);
      Resolved(r.done + next.done, next.rest)
  }

  /** Records known not to be open can be split off the front. */
  lemma SplitFront(card: seq<Rec>, m: nat, last: int)
    requires m <= |card| && forall i :: 0 <= i < m ==> !StampAt(card, i, last, true).Open?
    ensures var r := Resolution(card[m..], last, true);
            Resolution(card, last, true) == Resolved(TimedRange(card, 0, m, last, true) + r.done, r.rest)
  {
    hide StampAt, DoneCount, Contiguous;
    var rest := card[m..];
    var n := DoneCount(rest, last, true);
    forall i | 0 <= i < |rest|
      ensures StampAt(rest, i, last, true) == StampAt(card, m + i, last, true)
    {
      StampSuffix(card, m, m + i, last, true);
    }
    forall i | 0 <= i < m + n
      ensures !StampAt(card, i, last, true).Open?
    {
      if i >= m {
        assert !StampAt(rest, i - m, last, true).Open?;
      }
    }
    DoneCountUnique(card, last, true, m + n);
    assert rest[n..] == card[m + n..];
    forall i | 0 <= i < m + n
      ensures TimedRange(card, 0, m + n, last, true)[i] == (TimedRange(card, 0, m, last, true) + TimedRange(rest, 0, n, last, true))[i]
    {
      if i >= m {
        assert rest[i - m] == card[i];
      }
    }
    assert TimedRange(card, 0, m + n, last, true) == TimedRange(card, 0, m, last, true) + TimedRange(rest, 0, n, last, true);
  }

  /** Resolving a first part and then its rest with more resolves the whole at once. */
  lemma ResolveInTwo(buf: seq<Rec>, more: seq<Rec>, boot: int, last: int)
    requires Contiguous(buf + more)
    ensures var r := Resolution(buf, boot, false); var r' := Resolution(r.rest + more, last, true);
            Resolution(buf + more, last, true) == Resolved(r.done + r'.done, r'.rest)
  {
    hide StampOf, Contiguous;
    var card := buf + more;
    var m := DoneCount(buf, boot, false);
    assert card[..|buf|] == buf;
    forall i | 0 <= i < m
      ensures StampAt(card, i, last, true) == StampAt(buf, i, boot, false)
    {
      VerdictStands(card, |buf|, i, boot, false, last);
    }
    assert TimedRange(card, 0, m, last, true) == TimedRange(buf, 0, m, boot, false);
    assert card[m..] == buf[m..] + more;
    SplitFront(card, m, last);
  }

  lemma ContiguousSuffix(recs: seq<Rec>, c: nat)
    requires c <= |recs| && Contiguous(recs)
    ensures Contiguous(recs[c..])
  {
    var s := recs[c..];
    forall i, j, k | 0 <= i < j < k < |s| && s[i].boot == s[k].boot
      ensures s[j].boot == s[i].boot
    {
      assert recs[c + j].boot == recs[c + i].boot;
    }
  }

  /** Any page split of a contiguous log gives the same times and the same held tail as one call. */
  lemma {:induction false} PageSplitIndependent(buf: seq<Rec>, pages: seq<Page>)
    requires pages != [] && Contiguous(buf + Flatten(pages))
    ensures Feed(buf, pages) == Resolution(buf + Flatten(pages), pages[|pages| - 1].boot, true)
    decreases |pages|
  {
    var last := pages[|pages| - 1].boot;
    var now, more := buf + pages[0].recs, Flatten(pages[1..]);
    assert buf + Flatten(pages) == now + more;
    if |pages| == 1 {
      assert now + more == now;
    } else {
      var r := Resolution(now, pages[0].boot, false);
      var m := DoneCount(now, pages[0].boot, false);
      ContiguousSuffix(now + more, m);
      assert (now + more)[m..] == r.rest + more;
      PageSplitIndependent(r.rest, pages[1..]);
      ResolveInTwo(now, more, pages[0].boot, last);
    }
  }

  /** The split matters without contiguity: a boot that comes back finds its earlier record given up
      on by the first page, and stamped by one call on the whole log. */
  lemma SplitMattersWhenBootsReturn()
    ensures var a := Rec(1, 1, 0, None, []); var b := Rec(2, 2, 0, Some(50), []); var c := Rec(3, 1, 10, Some(100), []);
            && Feed([], [Page([a, b], 2), Page([c], 1)]).done[0] == Timed(a, None)
            && Resolution([a, b, c], 1, true).done[0] == Timed(a, Some(90))
  {
    var a, b, c := Rec(1, 1, 0, None, []), Rec(2, 2, 0, Some(50), []), Rec(3, 1, 10, Some(100), []);
    assert [a, b][1..] == [b] && [b][1..] == [] && [a, b, c][1..] == [b, c] && [b, c][1..] == [c];
    assert OtherBoot([b], 1) by { assert [b][0].boot != 1; }
    assert FirstAnchor([b], 1) == FirstAnchor([], 1) == None;
    assert FirstAnchor([b, c], 1) == FirstAnchor([c], 1) == Some(Anchor(100, 10));
    assert StampAt([a, b], 0, 2, false) == StampOf(a, [b], 2, false) == Never;
    assert StampAt([a, b, c], 0, 1, true) == StampOf(a, [b, c], 1, true) == At(90);
    assert [] + [a, b] == [a, b];
    var first := Resolution([a, b], 2, false);
    assert first.done[0] == TimedOf(a, Never);
    assert Feed([], [Page([a, b], 2), Page([c], 1)]).done[0] == first.done[0];
    var whole := Resolution([a, b, c], 1, true);
    assert whole.done[0] == TimedOf(a, At(90));
  }

  /** What is held back is unstamped and of one boot: the running one on the final call. */
  lemma HeldTail(buf: seq<Rec>, current: int, final: bool)
    ensures var rest := Resolution(buf, current, final).rest;
            forall r :: r in rest ==> r.ts.None? && r.boot == rest[0].boot && (final ==> r.boot == current)
  {
    var n := DoneCount(buf, current, final);
    var rest := buf[n..];
    if rest != [] {
      var later := buf[n + 1..];
      AnchorMember(later, buf[n].boot);
      forall k | 0 <= k < |rest|
        ensures rest[k].ts.None? && rest[k].boot == rest[0].boot && (final ==> rest[k].boot == current)
      {
        if k > 0 {
          assert rest[k] == later[k - 1];
          assert !OtherBoot(later, buf[n].boot);
        }
      }
    }
  }

  // ----- The times, by index -------------------------------------------------------------------

  /** Record `j` is the first stamped one of record `i`'s boot after it. */
  predicate Anchors(buf: seq<Rec>, i: nat, j: nat)
    requires i < |buf|
  {
    && i < j < |buf| && buf[j].boot == buf[i].boot && buf[j].ts.Some?
    && forall k :: i < k < j && buf[k].boot == buf[i].boot ==> buf[k].ts.None?
  }

  /** No record of its boot after record `i` is stamped. */
  predicate Unanchored(buf: seq<Rec>, i: nat)
    requires i < |buf|
  {
    forall k :: i < k < |buf| && buf[k].boot == buf[i].boot ==> buf[k].ts.None?
  }

  /** An anchor may still come: the record's boot has not ended. */
  predicate Waits(buf: seq<Rec>, i: nat, current: int, final: bool)
    requires i < |buf|
  {
    && buf[i].ts.None? && Unanchored(buf, i)
    && (forall k :: i < k < |buf| ==> buf[k].boot == buf[i].boot)
    && (final ==> buf[i].boot == current)
  }

  lemma {:induction false} FirstAnchorAt(recs: seq<Rec>, boot: int, j: nat)
    requires j < |recs| && recs[j].boot == boot && recs[j].ts.Some?
    requires forall k :: 0 <= k < j && recs[k].boot == boot ==> recs[k].ts.None?
    ensures FirstAnchor(recs, boot) == Some(Anchor(recs[j].ts.value, recs[j].up))
  {
    if j > 0 {
      FirstAnchorAt(recs[1..], boot, j - 1);
    }
  }

  /** A resolved record keeps its own time; without one it is set back from its boot's next stamped record by
      the uptime between them; and only if there is none it has no time. */
  lemma TimesResolved(buf: seq<Rec>, current: int, final: bool, i: nat)
    requires i < |Resolution(buf, current, final).done|
    ensures i < |buf|
    ensures var t := Resolution(buf, current, final).done[i];
            && t.rec == buf[i]
            && (buf[i].ts.Some? ==> t.ts == buf[i].ts)
            && (t.ts.None? <==> buf[i].ts.None? && Unanchored(buf, i))
            && forall j: nat :: buf[i].ts.None? && Anchors(buf, i, j) ==>
                 t.ts == Some(buf[j].ts.value - (buf[j].up - buf[i].up))
  {
    hide FirstAnchor, Anchors, Unanchored;
    AnchorOf(buf, i);
  }

  lemma AnchorOf(buf: seq<Rec>, i: nat)
    requires i < |buf|
    ensures FirstAnchor(buf[i + 1..], buf[i].boot).None? <==> Unanchored(buf, i)
    ensures forall j: nat :: Anchors(buf, i, j) ==>
              FirstAnchor(buf[i + 1..], buf[i].boot) == Some(Anchor(buf[j].ts.value, buf[j].up))
  {
    var later := buf[i + 1..];
    AnchorMember(later, buf[i].boot);
    forall j: nat | Anchors(buf, i, j)
      ensures FirstAnchor(later, buf[i].boot) == Some(Anchor(buf[j].ts.value, buf[j].up))
    {
      assert later[j - i - 1] == buf[j];
      FirstAnchorAt(later, buf[i].boot, j - i - 1);
    }
    assert forall k :: i < k < |buf| ==> buf[k] == later[k - i - 1];
  }

  /** Two records timed from one anchor lie their uptimes apart. */
  lemma UptimesApart(buf: seq<Rec>, current: int, final: bool, i: nat, k: nat, j: nat)
    requires i < |Resolution(buf, current, final).done| && k < |Resolution(buf, current, final).done|
    requires i < |buf| && k < |buf| && buf[i].ts.None? && buf[k].ts.None? && Anchors(buf, i, j) && Anchors(buf, k, j)
    ensures var done := Resolution(buf, current, final).done;
            done[i].ts.Some? && done[k].ts.Some? && done[k].ts.value - done[i].ts.value == buf[k].up - buf[i].up
  {
    TimesResolved(buf, current, final, i);
    TimesResolved(buf, current, final, k);
  }

  /** The resolved records are all up to the first that an anchor may still come for. */
  lemma ResolvedExactly(buf: seq<Rec>, current: int, final: bool)
    ensures var r := Resolution(buf, current, final); var n := |r.done|;
            && n <= |buf| && r.rest == buf[n..]
            && (forall i :: 0 <= i < n ==> !Waits(buf, i, current, final))
            && (n < |buf| ==> Waits(buf, n, current, final))
  {
    forall i | 0 <= i < |buf|
      ensures StampAt(buf, i, current, final).Open? <==> Waits(buf, i, current, final)
    {
      OpenIsWaiting(buf, i, current, final);
    }
  }

  lemma OpenIsWaiting(buf: seq<Rec>, i: nat, current: int, final: bool)
    requires i < |buf|
    ensures StampAt(buf, i, current, final).Open? <==> Waits(buf, i, current, final)
  {
    hide FirstAnchor, Anchors, Unanchored;
    var later := buf[i + 1..];
    AnchorOf(buf, i);
    assert forall k :: i < k < |buf| ==> buf[k] == later[k - i - 1];
    assert forall k :: 0 <= k < |later| ==> later[k] == buf[k + i + 1];
  }
}
