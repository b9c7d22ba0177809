/** Adopting documents from the shared store never goes back and forth: whatever the order
    in which replicas see the same documents, they end at equally good ones. */
module LicenceAdoption {
  import opened Options
  import opened Licence

  /** A document never signed counts as signed at instant zero. */
  ghost function SignedAt(doc: Doc): int {
    match doc.issuedAt
    case Some(t) => t
    case None => 0
  }

  /** Commercial before trial, then the newer attestation. */
  ghost predicate Better(a: Doc, b: Doc) {
    (a.kind == Commercial && b.kind == Trial) || (a.kind == b.kind && SignedAt(a) > SignedAt(b))
  }

  ghost predicate AsGood(a: Doc, b: Doc) {
    a.kind == b.kind && SignedAt(a) == SignedAt(b)
  }

  /** A document stays usable over the instants at which the store is read. */
  predicate StaysUsable(doc: Doc, localFp: string, clock: nat -> int, count: nat) {
    forall n: nat :: n < count ==> Validity(doc, localFp, clock(n)).None?
  }

  /** So do the starting document and all that are seen. */
  predicate AllUsable(s: State, docs: seq<Doc>, localFp: string, clock: nat -> int, count: nat) {
    && s.doc.Some? && s.revoked.None? && StaysUsable(s.doc.value, localFp, clock, count)
    && forall i :: 0 <= i < |docs| ==> StaysUsable(docs[i], localFp, clock, count)
  }

  /** While both documents are usable, a candidate is adopted exactly when it is better. */
  lemma AdoptsTheBetter(s: State, candidate: Doc, localFp: string, now: int)
    requires s.doc.Some? && s.revoked.None?
    requires Validity(s.doc.value, localFp, now).None? && Validity(candidate, localFp, now).None?
    ensures ShouldAdopt(s, candidate, localFp, now) <==> Better(candidate, s.doc.value)
  {
  }

  /** The state after reading the documents in order, the n-th at clock(n). */
  function After(s: State, docs: seq<Doc>, localFp: string, clock: nat -> int): State
    decreases |docs|
  {
    if docs == [] then s
    else AfterReload(After(s, docs[..|docs| - 1], localFp, clock), docs[|docs| - 1], localFp, clock(|docs| - 1))
  }

  /** The final document is one of those seen, and none seen is better: the store can
      offer any of them again and nothing is adopted any more. */
  lemma {:induction false} EndsAtTheBest(s: State, docs: seq<Doc>, localFp: string, clock: nat -> int, count: nat)
    requires |docs| <= count && AllUsable(s, docs, localFp, clock, count)
    ensures
      var final := After(s, docs, localFp, clock);
      final.doc.Some? && final.revoked.None? && StaysUsable(final.doc.value, localFp, clock, count)
      && (final.doc == s.doc || final.doc.value in docs)
      && !Better(s.doc.value, final.doc.value)
      && forall i :: 0 <= i < |docs| ==> !Better(docs[i], final.doc.value)
    decreases |docs|
  {
    if docs != [] {
      var n := |docs| - 1;
      var front := docs[..n];
      EndsAtTheBest(s, front, localFp, clock, count);
      var before := After(s, front, localFp, clock);
      assert forall i :: 0 <= i < n ==> docs[i] == front[i];
      assert before.doc.value in front ==> before.doc.value in docs;
      assert Validity(docs[n], localFp, clock(n)).None?;
      AdoptsTheBetter(before, docs[n], localFp, clock(n));
    }
  }

  /** Confluence: two replicas that start from the same licence and see the same documents,
      in whatever order and however often, end at equally good licences. */
  lemma Confluent(
    s: State, one: seq<Doc>, other: seq<Doc>, localFp: string, clockOne: nat -> int, clockOther: nat -> int
  )
    requires AllUsable(s, one, localFp, clockOne, |one|) && AllUsable(s, other, localFp, clockOther, |other|)
    requires forall d :: d in one <==> d in other
    ensures AsGood(After(s, one, localFp, clockOne).doc.value, After(s, other, localFp, clockOther).doc.value)
  {
    EndsAtTheBest(s, one, localFp, clockOne, |one|);
    EndsAtTheBest(s, other, localFp, clockOther, |other|);
    var a, b := After(s, one, localFp, clockOne).doc.value, After(s, other, localFp, clockOther).doc.value;
    if b != s.doc.value {
      assert b in one;
    }
    if a != s.doc.value {
      assert a in other;
    }
  }

  /** No ping-pong: a licence once replaced is never adopted again. */
  lemma {:induction false} NeverGoesBack(
    s: State, docs: seq<Doc>, localFp: string, clock: nat -> int, count: nat, m: nat
  )
    requires |docs| <= count && AllUsable(s, docs, localFp, clock, count)
    requires m <= |docs|
    ensures
      var earlier, later := After(s, docs[..m], localFp, clock).doc, After(s, docs, localFp, clock).doc;
      earlier.Some? && later.Some? && (later == earlier || Better(later.value, earlier.value))
    decreases |docs|
  {
    if m == |docs| {
      assert docs[..m] == docs;
      EndsAtTheBest(s, docs, localFp, clock, count);
    } else {
      var n := |docs| - 1;
      var front := docs[..n];
      assert front[..m] == docs[..m];
      NeverGoesBack(s, front, localFp, clock, count, m);
      EndsAtTheBest(s, front, localFp, clock, count);
      assert StaysUsable(docs[n], localFp, clock, count);
      assert Validity(docs[n], localFp, clock(n)).None?;
      AdoptsTheBetter(After(s, front, localFp, clock), docs[n], localFp, clock(n));
    }
  }

  /** A reader that follows the store in place. */
  method FollowStore(holder: Holder, docs: seq<Doc>, localFp: string, clock: nat -> int)
    modifies holder
    ensures holder.View() == After(old(holder.View()), docs, localFp, clock)
  {
    for i := 0 to |docs|
      invariant holder.View() == After(old(holder.View()), docs[..i], localFp, clock)
    {
      holder.ReloadStore(docs[i], localFp, clock(i));
      assert docs[..i + 1][..i] == docs[..i];
    }
    assert docs[..|docs|] == docs;
  }
}
