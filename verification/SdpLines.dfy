/** The rewritten answer as text, line by line (internal/nethernet/gateway.go:397-491), for every answer:
    what each connection, media and other line becomes, which candidate is kept and where it stands. */
module SdpLines {
  import opened Prelude
  import opened Sdp
  import opened SdpStability

  predicate IsCandidate(l: string) { "a=candidate:" <= l }

  /** The lines that are no candidates, in order. */
  function Rest(ls: seq<string>): seq<string> {
    if ls == [] then [] else (if IsCandidate(ls[0]) then [] else [ls[0]]) + Rest(ls[1..])
  }

  /** What a line other than a candidate becomes: a connection line names the public address, a media line
      has the relay's port for its second word, and every other line is as it was. */
  predicate Becomes(l: string, c: string, g: Gateway) {
    && !IsCandidate(c)
    && ("c=IN IP4 " <= l <==> "c=IN IP4 " <= c) && ("m=" <= l <==> "m=" <= c)
    && if "c=IN IP4 " <= l then c == "c=IN IP4 " + g.pub
       else if "m=" <= l && |Fields(l)| >= 2 then |Fields(c)| == |Fields(l)| && Fields(c)[1] == g.port && SameWords(l, c, 1)
       else c == l
  }

  /** All words are the same but the one at `but`. */
  predicate SameWords(l: string, c: string, but: nat) {
    |Fields(l)| == |Fields(c)| && forall i | 0 <= i < |Fields(l)| && i != but :: Fields(c)[i] == Fields(l)[i]
  }

  /** A candidate line with the public address and the relay's port, otherwise the words of `t`. */
  predicate Readdressed(t: string, c: string, g: Gateway) {
    && IsCandidate(c) && |Fields(t)| == |Fields(c)| >= 6 && Fields(c)[4] == g.pub && Fields(c)[5] == g.port
    && forall i | 0 <= i < |Fields(t)| && i != 4 && i != 5 :: Fields(c)[i] == Fields(t)[i]
  }

  // ---------------------------------------------------------------- the lines that are no candidates

  lemma FixBecomes(l: string, g: Gateway)
    requires PlainLine(l) && GoodGateway(g) && !IsCandidate(l)
    ensures Becomes(l, Fix(l, g), g)
  {
    FixShape(l, g);
    if "c=IN IP4 " <= l {
      assert Fix(l, g)[0] == 'c' && l[0] == 'c';
    } else if "m=" <= l {
      MLineShape(l, g.port);
      if |Fields(l)| >= 2 { MediaWords(l, g.port); }
    }
  }

  lemma MediaWords(l: string, port: string)
    requires "m=" <= l && IsToken(port) && |Fields(l)| >= 2
    ensures Fields(MLine(l, port)) == Fields(l)[1 := port]
  {
    FieldsAreTokens(l);
    FieldsOfJoin(Fields(l)[1 := port]);
  }

  ghost predicate AllBecome(ls: seq<string>, out: seq<string>, g: Gateway) {
    |out| == |ls| && forall i | 0 <= i < |ls| :: Becomes(ls[i], out[i], g)
  }

  lemma {:induction false} OthersAreRest(ls: seq<string>)
    ensures Others(ls) == Rest(ls)
  {
    if ls != [] { OthersAreRest(ls[1..]); }
  }

  lemma {:induction false} RestOf(ls: seq<string>)
    ensures forall i | 0 <= i < |Rest(ls)| :: Rest(ls)[i] in ls && !IsCandidate(Rest(ls)[i])
  {
    if ls != [] { RestOf(ls[1..]); }
  }

  lemma {:induction false} FixAllBecome(ls: seq<string>, g: Gateway)
    requires AllPlain(ls) && GoodGateway(g) && forall i | 0 <= i < |ls| :: !IsCandidate(ls[i])
    ensures AllBecome(ls, FixAll(ls, g), g)
  {
    if ls != [] {
      assert PlainLine(ls[0]) && !IsCandidate(ls[0]);
      FixBecomes(ls[0], g);
      assert forall i | 0 <= i < |ls[1..]| :: ls[1..][i] == ls[i + 1];
      FixAllBecome(ls[1..], g);
    }
  }

  lemma PlainRest(ls: seq<string>)
    requires AllPlain(ls)
    ensures AllPlain(Rest(ls)) && forall i | 0 <= i < |Rest(ls)| :: !IsCandidate(Rest(ls)[i])
  {
    RestOf(ls);
    forall i | 0 <= i < |Rest(ls)| ensures PlainLine(Rest(ls)[i]) {
      var k :| 0 <= k < |ls| && ls[k] == Rest(ls)[i];
    }
  }

  /** Whether a template is there or not, the other lines are treated alike. */
  lemma {:induction false} RewriteRest(ls: seq<string>, g: Gateway, t: Option<string>, inserted: bool)
    requires AllPlain(ls) && GoodGateway(g) && (t.Some? ==> CAND <= t.value && |Fields(t.value)| >= 6)
    ensures Rest(Rewrite(ls, g, t, inserted)) == FixAll(Rest(ls), g)
    decreases |ls|
  {
    if ls != [] {
      var l, r := ls[0], ls[1..];
      assert PlainLine(l);
      RewriteRest(r, g, t, inserted || (CAND <= l && t.Some?));
      RestCons(l, r);
      assert ls == [l] + r;
      if !(CAND <= l) {
        RestOfOther(l, r, g, t, inserted);
      } else {
        RestOfCandidate(l, r, g, t, inserted);
      }
    }
  }

  lemma RestOfOther(l: string, r: seq<string>, g: Gateway, t: Option<string>, inserted: bool)
    requires PlainLine(l) && GoodGateway(g) && !(CAND <= l) && (t.Some? ==> |Fields(t.value)| >= 6)
    ensures Rest(Rewrite([l] + r, g, t, inserted)) == [Fix(l, g)] + Rest(Rewrite(r, g, t, inserted))
    ensures FixAll([l] + Rest(r), g) == [Fix(l, g)] + FixAll(Rest(r), g)
  {
    FixShape(l, g);
    Cons(l, r, g);
    Cons(l, Rest(r), g);
    RestCons(Fix(l, g), Rewrite(r, g, t, inserted));
  }

  lemma RestOfCandidate(l: string, r: seq<string>, g: Gateway, t: Option<string>, inserted: bool)
    requires GoodGateway(g) && CAND <= l && (t.Some? ==> CAND <= t.value && |Fields(t.value)| >= 6)
    ensures Rest(Rewrite([l] + r, g, t, inserted)) == Rest(Rewrite(r, g, t, inserted || t.Some?))
  {
    Cons(l, r, g);
    if t.Some? {
      ReaddressShape(t.value, g);
      RestCons(Readdress(t.value, g), Rewrite(r, g, t, true));
    } else {
      if |Fields(l)| >= 6 { ReaddressShape(l, g); }
      RestCons(if |Fields(l)| >= 6 then Readdress(l, g) else l, Rewrite(r, g, t, inserted));
    }
  }

  lemma RestCons(l: string, r: seq<string>)
    ensures Rest([l] + r) == (if IsCandidate(l) then Rest(r) else [l] + Rest(r))
  {
    assert ([l] + r)[1..] == r;
  }

  // ---------------------------------------------------------------- the candidates

  /** A UDP host candidate, word by word. */
  predicate HostLine(l: string) {
    && IsCandidate(l) && |Fields(l)| >= 8
    && var f := Fields(l);
       && |f[2]| == 3 && f[2][0] in "uU" && f[2][1] in "dD" && f[2][2] in "pP" && f[6] == "typ"
       && |f[7]| == 4 && f[7][0] in "hH" && f[7][1] in "oO" && f[7][2] in "sS" && f[7][3] in "tT"
  }

  predicate HostAt(l: string, g: Gateway, kind: IpKind) { HostLine(l) && g.ip(Fields(l)[4]) == kind }

  lemma HostLineIff(l: string)
    ensures HostLine(l) <==> HostCandidate(l)
  {
  }

  /** The line that is kept: the first host candidate outside loopback, or else the first on loopback. */
  ghost predicate Keeps(ls: seq<string>, k: nat, g: Gateway) {
    && k < |ls|
    && if exists i :: 0 <= i < |ls| && HostAt(ls[i], g, Other)
       then HostAt(ls[k], g, Other) && forall i | 0 <= i < k :: !HostAt(ls[i], g, Other)
       else HostAt(ls[k], g, Loopback) && forall i | 0 <= i < k :: !HostAt(ls[i], g, Loopback)
  }

  lemma {:induction false} FirstAt(ls: seq<string>, g: Gateway, kind: IpKind) returns (k: nat)
    requires First(ls, g, kind).Some?
    ensures k < |ls| && First(ls, g, kind) == Some(ls[k]) && HostAt(ls[k], g, kind)
    ensures forall i | 0 <= i < k :: !HostAt(ls[i], g, kind)
    decreases |ls|
  {
    HostLineIff(ls[0]);
    if Usable(ls[0], g, kind) {
      k := 0;
    } else {
      k := FirstAt(ls[1..], g, kind);
      k := k + 1;
      assert forall i | 1 <= i < k :: ls[i] == ls[1..][i - 1];
    }
  }

  /** The chosen template is that line, and there is none exactly if no line qualifies. */
  lemma TemplateKeeps(ls: seq<string>, g: Gateway) returns (k: nat)
    ensures Template(ls, g).Some? ==> Keeps(ls, k, g) && Template(ls, g) == Some(ls[k])
    ensures Template(ls, g).None? <==> forall i | 0 <= i < |ls| :: !HostAt(ls[i], g, Other) && !HostAt(ls[i], g, Loopback)
  {
    FirstIsUsable(ls, g, Other);
    FirstIsUsable(ls, g, Loopback);
    forall i | 0 <= i < |ls| ensures HostLine(ls[i]) <==> HostCandidate(ls[i]) { HostLineIff(ls[i]); }
    k := 0;
    if First(ls, g, Other).Some? {
      k := FirstAt(ls, g, Other);
    } else if First(ls, g, Loopback).Some? {
      k := FirstAt(ls, g, Loopback);
    }
  }

  /** The kept candidate takes the place of the first candidate line. */
  lemma {:induction false} RewritePlace(ls: seq<string>, g: Gateway, t: string, k: nat)
    requires k < |ls| && IsCandidate(ls[k]) && (forall i | 0 <= i < k :: !IsCandidate(ls[i]))
    requires |Fields(t)| >= 6
    ensures var out := Rewrite(ls, g, Some(t), false); k < |out| && out[k] == Readdress(t, g)
    decreases k
  {
    if k > 0 {
      assert !IsCandidate(ls[0]) && ls[1..][k - 1] == ls[k];
      assert forall i | 0 <= i < k - 1 :: ls[1..][i] == ls[i + 1];
      RewritePlace(ls[1..], g, t, k - 1);
    }
  }

  // ---------------------------------------------------------------- the answer

  /** With a usable candidate: one candidate line, where the first one stood. */
  ghost predicate OneKept(ins: seq<string>, outs: seq<string>, g: Gateway) {
    exists k: nat {:trigger Keeps(ins, k, g)} :: Keeps(ins, k, g) && KeptFirst(ins, outs, k, g)
  }

  /** Line `k` stands, readdressed, where the first candidate stood. */
  ghost predicate KeptFirst(ins: seq<string>, outs: seq<string>, k: nat, g: Gateway)
    requires k < |ins|
  {
    && |outs| == |Rest(ins)| + 1
    && forall p: nat {:trigger FirstCandidate(ins, p)} :: FirstCandidate(ins, p) ==> p < |outs| && Readdressed(ins[k], outs[p], g)
  }

  predicate FirstCandidate(ls: seq<string>, p: nat) {
    p < |ls| && IsCandidate(ls[p]) && forall i | 0 <= i < p :: !IsCandidate(ls[i])
  }

  /** Without: every candidate line of at least six words is readdressed in its place. */
  ghost predicate EachKept(ins: seq<string>, outs: seq<string>, g: Gateway) {
    && |outs| == |ins|
    && forall i | 0 <= i < |ins| && IsCandidate(ins[i]) ::
         if |Fields(ins[i])| >= 6 then Readdressed(ins[i], outs[i], g) else outs[i] == ins[i]
  }

  /** The text that comes out, for every answer and every gateway whose address and port are single words. */
  ghost predicate AnswerRewritten(sdp: string, r: string, g: Gateway) {
    var ins, outs := Trimmeds(sdp), Lines(r);
    && AllBecome(Rest(ins), Rest(outs), g)
    && if exists i :: 0 <= i < |ins| && (HostAt(ins[i], g, Other) || HostAt(ins[i], g, Loopback))
       then OneKept(ins, outs, g) else EachKept(ins, outs, g)
  }

  lemma AnswerLines(sdp: string, g: Gateway)
    requires GoodGateway(g)
    ensures AnswerRewritten(sdp, RewriteSdp(sdp, g), g)
  {
    var ins := Trimmeds(sdp);
    var out := PlainResult(sdp, g);
    TrimmedLinesPlain(Unify(sdp));
    LinesOfJoin(out, Separator(sdp));
    RewriteRest(ins, g, Template(ins, g), false);
    PlainRest(ins);
    FixAllBecome(Rest(ins), g);
    var k := TemplateKeeps(ins, g);
    if Template(ins, g).Some? {
      KeptIsOne(ins, out, g, k);
    } else {
      NoneKeepsEach(ins, out, g);
    }
  }

  lemma {:induction false} FindCandidate(ls: seq<string>, k: nat) returns (p: nat)
    requires k < |ls| && IsCandidate(ls[k])
    ensures FirstCandidate(ls, p)
    decreases k
  {
    if IsCandidate(ls[0]) {
      p := 0;
    } else {
      p := FindCandidate(ls[1..], k - 1);
      p := p + 1;
      assert forall i | 1 <= i < p :: ls[i] == ls[1..][i - 1];
    }
  }

  lemma KeptIsOne(ins: seq<string>, out: seq<string>, g: Gateway, k: nat)
    requires AllPlain(ins) && GoodGateway(g) && Keeps(ins, k, g) && out == Rewrite(ins, g, Some(ins[k]), false)
    ensures OneKept(ins, out, g)
  {
    var q := FindCandidate(ins, k);
    KeptAt(ins, g, ins[k], q);
    forall p: nat | FirstCandidate(ins, p) ensures p < |out| && Readdressed(ins[k], out[p], g) {
      KeptAt(ins, g, ins[k], p);
    }
  }

  lemma KeptAt(ins: seq<string>, g: Gateway, t: string, p: nat)
    requires AllPlain(ins) && GoodGateway(g) && HostLine(t)
    requires FirstCandidate(ins, p)
    ensures var out := Rewrite(ins, g, Some(t), false);
            p < |out| && Readdressed(t, out[p], g) && |out| == |Rest(ins)| + 1
  {
    var out := Rewrite(ins, g, Some(t), false);
    ReaddressShape(t, g);
    RewritePlace(ins, g, t, p);
    RewriteShape(ins, g, t, false);
    CandsHas(ins, ins[p]);
    CountLines(out);
    OthersAreRest(ins);
    FixAllLength(Others(ins), g);
  }

  lemma {:induction false} CountLines(ls: seq<string>)
    ensures |ls| == |Cands(ls)| + |Others(ls)|
  {
    if ls != [] { CountLines(ls[1..]); }
  }

  lemma {:induction false} FixAllLength(ls: seq<string>, g: Gateway)
    ensures |FixAll(ls, g)| == |ls|
  {
    if ls != [] { FixAllLength(ls[1..], g); }
  }

  lemma NoneKeepsEach(ins: seq<string>, out: seq<string>, g: Gateway)
    requires AllPlain(ins) && GoodGateway(g) && out == Rewrite(ins, g, None, false)
    ensures EachKept(ins, out, g)
  {
    NoTemplateIsEach(ins, g);
    EachAt(ins, g);
    forall i | 0 <= i < |ins| && IsCandidate(ins[i])
      ensures if |Fields(ins[i])| >= 6 then Readdressed(ins[i], out[i], g) else out[i] == ins[i]
    {
      if |Fields(ins[i])| >= 6 { ReaddressShape(ins[i], g); }
    }
  }

  lemma {:induction false} EachAt(ls: seq<string>, g: Gateway)
    ensures |EachOf(ls, g)| == |ls| && forall i | 0 <= i < |ls| :: EachOf(ls, g)[i] == Each(ls[i], g)
  {
    if ls != [] { EachAt(ls[1..], g); }
  }

  /** A candidate takes one line away from the rest. */
  lemma {:induction false} RestAtMost(ls: seq<string>, p: nat)
    requires p < |ls| && IsCandidate(ls[p])
    ensures |Rest(ls)| <= |Rest(ls[..p])| + |Rest(ls[p + 1..])| && |Rest(ls[..p])| <= p
    decreases p
  {
    RestLength(ls[..p]);
    if p > 0 {
      assert ls[1..][..p - 1] == ls[..p][1..] && ls[1..][p..] == ls[p + 1..] && ls[..p][0] == ls[0];
      RestAtMost(ls[1..], p - 1);
    }
  }

  lemma {:induction false} RestLength(ls: seq<string>)
    ensures |Rest(ls)| <= |ls|
    ensures forall i | 0 <= i < |ls| && IsCandidate(ls[i]) :: |Rest(ls)| < |ls|
  {
    if ls != [] {
      RestLength(ls[1..]);
      assert forall i | 1 <= i < |ls| :: ls[i] == ls[1..][i - 1];
    }
  }

  lemma TwoCandidates(ls: seq<string>, p: nat, q: nat)
    requires p < q < |ls| && IsCandidate(ls[p]) && IsCandidate(ls[q])
    ensures |Rest(ls)| <= |ls| - 2
  {
    RestAtMost(ls, p);
    RestLength(ls[p + 1..]);
    assert ls[p + 1..][q - p - 1] == ls[q];
  }

  /** With a usable candidate exactly one candidate line is left: the first outside loopback, or else the
      first on it, with the public address and the relay's port.  All other lines stay, in order. */
  lemma OneCandidate(sdp: string, g: Gateway) returns (k: nat, p: nat)
    requires GoodGateway(g)
    requires exists i :: 0 <= i < |Trimmeds(sdp)| && (HostAt(Trimmeds(sdp)[i], g, Other) || HostAt(Trimmeds(sdp)[i], g, Loopback))
    ensures var ins, outs := Trimmeds(sdp), Lines(RewriteSdp(sdp, g));
            && Keeps(ins, k, g) && p < |outs| && Readdressed(ins[k], outs[p], g)
            && (forall i | 0 <= i < |outs| :: IsCandidate(outs[i]) <==> i == p)
            && AllBecome(Rest(ins), Rest(outs), g)
  {
    AnswerLines(sdp, g);
    k, p := OneLeft(Trimmeds(sdp), Lines(RewriteSdp(sdp, g)), g);
  }

  lemma OneLeft(ins: seq<string>, outs: seq<string>, g: Gateway) returns (k: nat, p: nat)
    requires OneKept(ins, outs, g) && AllBecome(Rest(ins), Rest(outs), g)
    ensures Keeps(ins, k, g) && p < |outs| && Readdressed(ins[k], outs[p], g)
    ensures forall i | 0 <= i < |outs| :: IsCandidate(outs[i]) <==> i == p
  {
    k :| Keeps(ins, k, g) && KeptFirst(ins, outs, k, g);
    p := FindCandidate(ins, k);
    forall i | 0 <= i < |outs| ensures IsCandidate(outs[i]) <==> i == p {
      if i < p && IsCandidate(outs[i]) { TwoCandidates(outs, i, p); }
      if i > p && IsCandidate(outs[i]) { TwoCandidates(outs, p, i); }
    }
  }

  /** `rewriteSDP`. */
  method RewriteAnswer(sdp: string, g: Gateway) returns (r: string)
    ensures r == RewriteSdp(sdp, g)
    ensures GoodGateway(g) ==> AnswerRewritten(sdp, r, g)
  {
    var sep := if HasCrlf(sdp) then "\r\n" else "\n";
    var lines := TrimAll(Split(Unify(sdp)));
    var t := ChooseTemplate(lines, g);
    var result := RewriteLines(lines, g, t);
    r := Join(result, sep);
    if GoodGateway(g) { AnswerLines(sdp, g); }
  }

  // ---------------------------------------------------------------- where the data goes

  /** A host candidate that states a port other than 0. */
  predicate States(l: string, g: Gateway) {
    HostLine(l) && g.num(Fields(l)[5]).Some? && g.num(Fields(l)[5]).value != 0
  }

  predicate StatesOutside(l: string, g: Gateway) { States(l, g) && g.ip(Fields(l)[4]) == Other }

  predicate NoneStates(ls: seq<string>, g: Gateway) { forall i | 0 <= i < |ls| :: !States(ls[i], g) }

  predicate NoneOutside(ls: seq<string>, g: Gateway) { forall i | 0 <= i < |ls| :: !StatesOutside(ls[i], g) }

  /** Line `k` is the first that states a port outside loopback. */
  predicate FirstOutside(ls: seq<string>, k: nat, g: Gateway) {
    k < |ls| && StatesOutside(ls[k], g) && NoneOutside(ls[..k], g)
  }

  /** Line `k` is the first that states a port at all, and no line states one outside loopback. */
  predicate FirstInside(ls: seq<string>, k: nat, g: Gateway) {
    k < |ls| && States(ls[k], g) && NoneStates(ls[..k], g) && NoneOutside(ls, g)
  }

  ghost predicate DataGoesTo(ls: seq<string>, g: Gateway, port: int) {
    && (forall k: nat | FirstOutside(ls, k, g) :: g.num(Fields(ls[k])[5]) == Some(port))
    && (forall k: nat | FirstInside(ls, k, g) :: g.num(Fields(ls[k])[5]) == Some(port))
    && (NoneStates(ls, g) ==> port == g.target)
  }

  lemma PortStep(l: string, r: seq<string>, g: Gateway, fallback: int)
    ensures DataPort([l] + r, g, fallback) ==
              if StatesOutside(l, g) then g.num(Fields(l)[5]).value
              else DataPort(r, g, if fallback == 0 && States(l, g) then g.num(Fields(l)[5]).value else fallback)
  {
    HostLineIff(l);
    assert ([l] + r)[1..] == r;
  }

  lemma {:induction false} OutsideWins(ls: seq<string>, g: Gateway, fallback: int, k: nat)
    requires FirstOutside(ls, k, g)
    ensures Some(DataPort(ls, g, fallback)) == g.num(Fields(ls[k])[5])
    decreases k
  {
    assert ls == [ls[0]] + ls[1..];
    PortStep(ls[0], ls[1..], g, fallback);
    if k > 0 {
      assert ls[..k][0] == ls[0] && ls[1..][..k - 1] == ls[..k][1..];
      OutsideWins(ls[1..], g, if fallback == 0 && States(ls[0], g) then g.num(Fields(ls[0])[5]).value else fallback, k - 1);
    }
  }

  lemma {:induction false} FallbackStays(ls: seq<string>, g: Gateway, fallback: int)
    requires NoneOutside(ls, g) && (fallback != 0 || NoneStates(ls, g))
    ensures DataPort(ls, g, fallback) == if fallback != 0 then fallback else g.target
  {
    if ls != [] {
      assert ls == [ls[0]] + ls[1..];
      PortStep(ls[0], ls[1..], g, fallback);
      FallbackStays(ls[1..], g, fallback);
    }
  }

  lemma {:induction false} InsideWins(ls: seq<string>, g: Gateway, k: nat)
    requires FirstInside(ls, k, g)
    ensures Some(DataPort(ls, g, 0)) == g.num(Fields(ls[k])[5])
    decreases k
  {
    assert ls == [ls[0]] + ls[1..];
    PortStep(ls[0], ls[1..], g, 0);
    if k > 0 {
      assert ls[..k][0] == ls[0] && ls[1..][..k - 1] == ls[..k][1..];
      InsideWins(ls[1..], g, k - 1);
    } else {
      FallbackStays(ls[1..], g, g.num(Fields(ls[0])[5]).value);
    }
  }

  /** The first port stated outside loopback; else the first stated at all; else the signalling port. */
  lemma DataPortSays(ls: seq<string>, g: Gateway)
    ensures DataGoesTo(ls, g, DataPort(ls, g, 0))
  {
    forall k: nat | FirstOutside(ls, k, g) ensures g.num(Fields(ls[k])[5]) == Some(DataPort(ls, g, 0)) { OutsideWins(ls, g, 0, k); }
    forall k: nat | FirstInside(ls, k, g) ensures g.num(Fields(ls[k])[5]) == Some(DataPort(ls, g, 0)) { InsideWins(ls, g, k); }
    if NoneStates(ls, g) { FallbackStays(ls, g, 0); }
  }

  method BackendDataPort(sdp: string, g: Gateway) returns (port: int)
    ensures port == DataPort(Trimmeds(sdp), g, 0) && DataGoesTo(Trimmeds(sdp), g, port)
  {
    var lines := Split(sdp);
    TrimmedAlike(sdp);
    DataPortSays(Trimmeds(sdp), g);
    var fallback, i := 0, 0;
    while i < |lines|
      invariant i <= |lines| && DataPort(Trimmeds(sdp), g, 0) == DataPort(TrimAll(lines)[i..], g, fallback)
    {
      var line := Trim(lines[i]);
      assert TrimAll(lines)[i..][0] == line && TrimAll(lines)[i..][1..] == TrimAll(lines)[i + 1..];
      i := i + 1;
      if !HostCandidate(line) {
        continue;
      }
      var p := StatedPort(line, g);
      if p == 0 {
        continue;
      }
      if g.ip(Fields(line)[4]).Other? {
        return p;
      }
      if fallback == 0 {
        fallback := p;
      }
    }
    port := if fallback != 0 then fallback else g.target;
  }
}
