/** When rewriting an answer a second time changes nothing (internal/nethernet/gateway.go:397-491), for
    every input: with a usable candidate always, and without one exactly when the addresses put in by
    the first rewrite do not turn several candidates into usable ones. */
module SdpStability {
  import opened Prelude
  import opened Sdp

  /** What happens to one line when there is no template. */
  function Each(l: string, g: Gateway): string {
    if !(CAND <= l) then Fix(l, g) else if |Fields(l)| >= 6 then Readdress(l, g) else l
  }

  function EachOf(ls: seq<string>, g: Gateway): seq<string> {
    if ls == [] then [] else [Each(ls[0], g)] + EachOf(ls[1..], g)
  }

  lemma {:induction false} NoTemplateIsEach(ls: seq<string>, g: Gateway)
    ensures Rewrite(ls, g, None, false) == EachOf(ls, g)
    decreases |ls|
  {
    if ls != [] { NoTemplateIsEach(ls[1..], g); }
  }

  lemma EachShape(l: string, g: Gateway)
    requires PlainLine(l) && GoodGateway(g)
    ensures var c := Each(l, g);
            && PlainLine(c) && (CAND <= c <==> CAND <= l) && Each(c, g) == c
            && (HostCandidate(c) <==> HostCandidate(l)) && (HostCandidate(c) ==> Fields(c)[4] == g.pub && Readdress(c, g) == c)
  {
    if !(CAND <= l) { FixShape(l, g); } else if |Fields(l)| >= 6 { ReaddressShape(l, g); }
  }

  ghost predicate EachResult(ls: seq<string>, out: seq<string>, g: Gateway) {
    && |out| == |ls| && AllPlain(out) && EachOf(out, g) == out && FixAll(Others(out), g) == Others(out)
    && |Cands(out)| == |Cands(ls)|
    && forall i | 0 <= i < |ls| :: SameKind(ls[i], out[i], g)
  }

  /** Both or neither are host candidates, and the second is finished. */
  predicate SameKind(l: string, c: string, g: Gateway) {
    && (HostCandidate(c) <==> HostCandidate(l))
    && (HostCandidate(c) ==> Fields(c)[4] == g.pub && Readdress(c, g) == c)
  }

  lemma {:induction false} EachOfShape(ls: seq<string>, g: Gateway)
    requires AllPlain(ls) && GoodGateway(g)
    ensures EachResult(ls, EachOf(ls, g), g)
    decreases |ls|
  {
    if ls != [] {
      var l, r, out := ls[0], ls[1..], EachOf(ls[1..], g);
      assert PlainLine(l) && ls == [l] + r;
      EachShape(l, g);
      EachOfShape(r, g);
      EachCons(l, r, out, g);
    }
  }

  lemma EachCons(l: string, r: seq<string>, out: seq<string>, g: Gateway)
    requires PlainLine(l) && GoodGateway(g) && EachResult(r, out, g)
    ensures EachResult([l] + r, [Each(l, g)] + out, g)
  {
    var c := Each(l, g);
    EachShape(l, g);
    CountsCons(l, c, r, out, g);
    PlainCons(c, out);
    var ls', out' := [l] + r, [c] + out;
    assert EachOf(out', g) == [c] + EachOf(out, g) by { assert out'[1..] == out; }
    forall i | 0 <= i < |ls'| ensures SameKind(ls'[i], out'[i], g) {
      if i > 0 { assert SameKind(r[i - 1], out[i - 1], g); }
    }
  }

  lemma CountsCons(l: string, c: string, r: seq<string>, out: seq<string>, g: Gateway)
    requires (CAND <= c <==> CAND <= l) && (!(CAND <= c) ==> Fix(c, g) == c)
    requires |Cands(out)| == |Cands(r)| && FixAll(Others(out), g) == Others(out)
    ensures |Cands([c] + out)| == |Cands([l] + r)| && FixAll(Others([c] + out), g) == Others([c] + out)
  {
    Cons(l, r, g);
    Cons(c, out, g);
    Cons(c, Others(out), g);
  }

  /** Several candidate lines, none usable until the first rewrite gives them the public address. */
  predicate Collapses(ls: seq<string>, g: Gateway) {
    && Template(ls, g).None? && g.ip(g.pub) != NotIp && |Cands(ls)| >= 2
    && exists i :: 0 <= i < |ls| && HostCandidate(ls[i])
  }

  /** The second rewrite's template, if the first found none. */
  lemma SecondTemplate(ls: seq<string>, out: seq<string>, g: Gateway)
    requires EachResult(ls, out, g)
    ensures Template(out, g).Some? <==> g.ip(g.pub) != NotIp && exists i :: 0 <= i < |ls| && HostCandidate(ls[i])
    ensures Template(out, g).Some? ==> Readdress(Template(out, g).value, g) == Template(out, g).value
  {
    FirstIsUsable(out, g, Other);
    FirstIsUsable(out, g, Loopback);
    if g.ip(g.pub) != NotIp && exists i :: 0 <= i < |ls| && HostCandidate(ls[i]) {
      var i :| 0 <= i < |ls| && HostCandidate(ls[i]);
      assert SameKind(ls[i], out[i], g);
      assert Usable(out[i], g, g.ip(g.pub));
    }
    if Template(out, g).Some? {
      var i :| 0 <= i < |out| && out[i] == Template(out, g).value;
      assert SameKind(ls[i], out[i], g);
    }
  }

  /** Without a template, the second pass leaves the lines alone … */
  lemma SecondPassStable(ls: seq<string>, out: seq<string>, g: Gateway)
    requires Template(ls, g).None? && EachResult(ls, out, g) && !Collapses(ls, g)
    ensures Rewrite(out, g, Template(out, g), false) == out
  {
    SecondTemplate(ls, out, g);
    if Template(out, g).None? {
      NoTemplateIsEach(out, g);
    } else {
      var t := Template(out, g).value;
      CandsHas(out, t);
      assert Cands(out) == [t];
      RewriteStable(out, g, Some(t), false, t);
    }
  }

  /** … or collapses the candidates into one. */
  lemma SecondPassCollapses(ls: seq<string>, out: seq<string>, g: Gateway)
    requires GoodGateway(g) && EachResult(ls, out, g) && Collapses(ls, g)
    ensures var next := Rewrite(out, g, Template(out, g), false); AllPlain(next) && next != [] && next != out
  {
    SecondTemplate(ls, out, g);
    var t := Template(out, g).value;
    RewriteShape(out, g, t, false);
    OneLeft(out, Rewrite(out, g, Some(t), false), g, Readdress(t, g));
  }

  lemma OneLeft(out: seq<string>, next: seq<string>, g: Gateway, c: string)
    requires Rewrites(out, next, g, c, false) && |Cands(out)| >= 2
    ensures AllPlain(next) && next != [] && next != out
  {
  }

  /** Lines put together are told apart again, whatever the separators. */
  lemma JoinsDiffer(a: seq<string>, b: seq<string>, s: string, t: string)
    requires a != [] && b != [] && AllPlain(a) && AllPlain(b) && a != b
    requires (s == "\n" || s == "\r\n") && (t == "\n" || t == "\r\n")
    ensures Join(a, s) != Join(b, t)
  {
    LinesOfJoin(a, s);
    LinesOfJoin(b, t);
  }

  /** Joined with the separator that is read back, the same lines give the same text. */
  lemma JoinAgain(out: seq<string>, sdp: string)
    requires out != [] && AllPlain(out)
    ensures Join(out, Separator(Join(out, Separator(sdp)))) == Join(out, Separator(sdp))
  {
    if |out| > 1 {
      if HasCrlf(sdp) { CrlfOf(out); } else { NoCrlfOf(out); }
    }
  }

  lemma WithoutTemplate(sdp: string, g: Gateway)
    requires GoodGateway(g) && Template(Trimmeds(sdp), g).None?
    ensures RewriteSdp(RewriteSdp(sdp, g), g) == RewriteSdp(sdp, g) <==> !Collapses(Trimmeds(sdp), g)
  {
    var ls := Trimmeds(sdp);
    TrimmedLinesPlain(Unify(sdp));
    var out := EachOf(ls, g);
    NoTemplateIsEach(ls, g);
    EachOfShape(ls, g);
    var once := RewriteSdp(sdp, g);
    LinesOfJoin(out, Separator(sdp));
    TrimAllPlain(out);
    assert Trimmeds(once) == out;
    var next := Rewrite(out, g, Template(out, g), false);
    assert RewriteSdp(once, g) == Join(next, Separator(once));
    if Collapses(ls, g) {
      SecondPassCollapses(ls, out, g);
      JoinsDiffer(next, out, Separator(once), Separator(sdp));
    } else {
      SecondPassStable(ls, out, g);
      JoinAgain(out, sdp);
    }
  }

  /** For every answer: rewriting twice is rewriting once, if and only if the answer has a usable
      candidate, or no host candidate, or a single candidate line, or the public address is no
      literal address. */
  lemma IdempotentIff(sdp: string, g: Gateway)
    requires GoodGateway(g)
    ensures RewriteSdp(RewriteSdp(sdp, g), g) == RewriteSdp(sdp, g) <==> !Collapses(Trimmeds(sdp), g)
  {
    if Template(Trimmeds(sdp), g).Some? { Idempotent(sdp, g); } else { WithoutTemplate(sdp, g); }
  }
}
