/** Edge failover of the HLS proxy (libs/videoutils/proxy.go, fetchWithEdgeFailover).

    `answer(i)` is what the i-th call of `do` yields: exactly one of a response or an error.  The body of the
    i-th response is known as `i`, so that closing it twice, or never, can be told apart. */
module EdgeFailover {
  import opened Optional
  import opened Text

  const MAX_ROTATIONS := 2
  const DEFAULT_EDGES := ["p12", "p13", "p14"]
  const SUFFIX := ".solodcdn.com"

  datatype Answer = Status(code: int) | Timeout | DialError

  predicate Final(a: Answer) { a.Status? && a.code < 500 }

  function Outcome(a: Answer): string {
    match a
    case Timeout => "timeout"
    case DialError => "dial_error"
    case Status(code) => if code >= 500 then "http5xx" else if code >= 400 then "http4xx" else "ok"
  }

  datatype Attempt = Attempt(edge: string, outcome: string)

  datatype Returned = Response(body: nat) | Error(attempt: nat)

  // ----- which hosts fail over -----

  function Lower(c: char): char { if 'A' <= c <= 'Z' then 'a' + (c - 'A') else c }

  function LowerAll(s: string): string { seq(|s|, i requires 0 <= i < |s| => Lower(s[i])) }

  /** Cuts the host at its last colon. */
  function WithoutPort(s: string): string
    decreases |s|
  {
    if ':' !in s then s
    else if s[|s| - 1] == ':' then s[..|s| - 1]
    else WithoutPort(s[..|s| - 1])
  }

  predicate IsEdgeLabel(s: string) {
    |s| >= 2 && s[0] == 'p' && forall i | 1 <= i < |s| :: '0' <= s[i] <= '9'
  }

  /** The p<N> label of a p<N>.solodcdn.com host, case and port aside. */
  function EdgeOf(host: string): Option<string> {
    var h := WithoutPort(LowerAll(host));
    if |h| >= |SUFFIX| && h[|h| - |SUFFIX|..] == SUFFIX && IsEdgeLabel(h[..|h| - |SUFFIX|])
    then Some(h[..|h| - |SUFFIX|]) else None
  }

  // ----- the reference: which edges are tried, and what is kept -----

  /** The pool without the nominal edge, in order. */
  function Siblings(edges: seq<string>, nominal: string): seq<string> {
    if edges == [] then []
    else (if edges[0] == nominal then [] else [edges[0]]) + Siblings(edges[1..], nominal)
  }

  /** The edges in the order they may be tried: the nominal one, then at most two others. */
  function Candidates(edges: seq<string>, nominal: string): seq<string> {
    var siblings := Siblings(edges, nominal);
    [nominal] + if |siblings| <= MAX_ROTATIONS then siblings else siblings[..MAX_ROTATIONS]
  }

  /** `n` attempts are made: all but the last fail, and the last is final or the candidates are used up. */
  ghost predicate Attempts(candidates: seq<string>, answer: nat -> Answer, n: nat) {
    && 1 <= n <= |candidates|
    && (forall i: nat :: i < n - 1 ==> !Final(answer(i)))
    && (Final(answer(n - 1)) || n == |candidates|)
  }

  function Trail(candidates: seq<string>, answer: nat -> Answer, n: nat): seq<Attempt>
    requires n <= |candidates|
  {
    seq(n, i requires 0 <= i < n => Attempt(candidates[i], Outcome(answer(i))))
  }

  /** The attempts below `n` that produced a response, in order. */
  function Responses(answer: nat -> Answer, n: nat): seq<nat> {
    if n == 0 then []
    else Responses(answer, n - 1) + if answer(n - 1).Status? then [n - 1] else []
  }

  predicate Increasing(s: seq<nat>) { forall i, j :: 0 <= i < j < |s| ==> s[i] < s[j] }

  lemma {:induction false} ResponsesBelow(answer: nat -> Answer, n: nat)
    ensures var r := Responses(answer, n);
            && (forall i :: 0 <= i < |r| ==> r[i] < n && answer(r[i]).Status?)
            && Increasing(r)
            && (forall k: nat :: k < n && answer(k).Status? ==> k in r)
  {
    if n > 0 {
      ResponsesBelow(answer, n - 1);
      var front := Responses(answer, n - 1);
      if answer(n - 1).Status? {
        assert Responses(answer, n) == front + [n - 1];
        assert (front + [n - 1])[|front|] == n - 1;
      } else {
        assert Responses(answer, n) == front;
      }
    }
  }

  /** The last response is returned and every earlier one closed; without any, the last error is returned. */
  ghost predicate Settled(candidates: seq<string>, answer: nat -> Answer, n: nat, returned: Returned, served: string, closed: seq<nat>)
    requires 1 <= n <= |candidates|
  {
    var live := Responses(answer, n);
    if live == [] then returned == Error(n - 1) && served == "" && closed == []
    else returned == Response(Last(live)) && Last(live) < n && served == candidates[Last(live)] && closed == DropLast(live)
  }

  lemma {:induction false} SiblingsSnoc(edges: seq<string>, nominal: string, edge: string)
    ensures Siblings(edges + [edge], nominal) == Siblings(edges, nominal) + if edge == nominal then [] else [edge]
    decreases |edges|
  {
    if edges == [] {
      assert edges + [edge] == [edge];
    } else {
      SiblingsSnoc(edges[1..], nominal, edge);
      assert (edges + [edge])[1..] == edges[1..] + [edge];
    }
  }

  lemma {:induction false} SiblingsPrefix(edges: seq<string>, nominal: string, i: nat)
    requires i <= |edges|
    ensures Siblings(edges[..i], nominal) <= Siblings(edges, nominal)
    decreases i
  {
    if i > 0 {
      SiblingsPrefix(edges[1..], nominal, i - 1);
      assert edges[..i][1..] == edges[1..][..i - 1];
    }
  }

  lemma {:induction false} SiblingsOthers(edges: seq<string>, nominal: string)
    ensures nominal !in Siblings(edges, nominal)
    ensures forall e :: e in Siblings(edges, nominal) ==> e in edges
    decreases |edges|
  {
    if edges != [] {
      SiblingsOthers(edges[1..], nominal);
    }
  }

  /** The scan meets the candidates in order. */
  lemma NextCandidate(pool: seq<string>, nominal: string, i: nat)
    requires i < |pool|
    ensures var met := |Siblings(pool[..i], nominal)|;
            |Siblings(pool[..i + 1], nominal)| == (if pool[i] == nominal then met else met + 1)
            && (pool[i] != nominal && met < MAX_ROTATIONS ==>
                  met + 1 < |Candidates(pool, nominal)| && Candidates(pool, nominal)[met + 1] == pool[i])
  {
    SiblingsSnoc(pool[..i], nominal, pool[i]);
    assert pool[..i + 1] == pool[..i] + [pool[i]];
    SiblingsPrefix(pool, nominal, i + 1);
  }

  lemma AllCandidates(pool: seq<string>, nominal: string)
    ensures |Candidates(pool, nominal)| ==
            1 + if |Siblings(pool, nominal)| <= MAX_ROTATIONS then |Siblings(pool, nominal)| else MAX_ROTATIONS
    ensures Candidates(pool, nominal)[0] == nominal
    ensures pool[..|pool|] == pool && Siblings(pool[..0], nominal) == []
  {
  }

  lemma TrailSnoc(candidates: seq<string>, answer: nat -> Answer, n: nat)
    requires n < |candidates|
    ensures Trail(candidates, answer, n + 1) == Trail(candidates, answer, n) + [Attempt(candidates[n], Outcome(answer(n)))]
  {
  }

  // ----- the loop -----

  /** After attempts 0 to `last`, none of them final: the live response kept so far, or the last error. */
  ghost predicate Progress(candidates: seq<string>, answer: nat -> Answer, last: nat, trail: seq<Attempt>,
                           current: Option<nat>, currentErr: nat, currentEdge: string, closed: seq<nat>)
  {
    && last < |candidates| && trail == Trail(candidates, answer, last + 1)
    && (forall k: nat :: k <= last ==> !Final(answer(k)))
    && (if current.None? then Responses(answer, last + 1) == [] && closed == [] && currentErr == last
        else current.value <= last && currentEdge == candidates[current.value]
             && Responses(answer, last + 1) == closed + [current.value])
  }

  function Closing(current: Option<nat>, closed: seq<nat>): seq<nat> {
    if current.Some? then closed + [current.value] else closed
  }

  /** A further attempt that is not final. */
  lemma Advance(candidates: seq<string>, answer: nat -> Answer, last: nat, trail: seq<Attempt>,
                current: Option<nat>, currentErr: nat, currentEdge: string, closed: seq<nat>)
    requires Progress(candidates, answer, last, trail, current, currentErr, currentEdge, closed)
    requires last + 1 < |candidates| && !Final(answer(last + 1))
    ensures var edge, reply := candidates[last + 1], answer(last + 1);
            var longer := trail + [Attempt(edge, Outcome(reply))];
            if reply.Status?
            then Progress(candidates, answer, last + 1, longer, Some(last + 1), currentErr, edge, Closing(current, closed))
            else Progress(candidates, answer, last + 1, longer, current, if current.None? then last + 1 else currentErr,
                          currentEdge, closed)
  {
    hide Trail, Outcome, Responses;
    TrailSnoc(candidates, answer, last + 1);
    ResponsesSnoc(answer, last + 1);
  }

  /** A further attempt that is final settles the fetch. */
  lemma FinishEarly(candidates: seq<string>, answer: nat -> Answer, last: nat, trail: seq<Attempt>,
                    current: Option<nat>, currentErr: nat, currentEdge: string, closed: seq<nat>)
    requires Progress(candidates, answer, last, trail, current, currentErr, currentEdge, closed)
    requires last + 1 < |candidates| && Final(answer(last + 1))
    ensures var edge, n := candidates[last + 1], last + 2;
            Attempts(candidates, answer, n) && trail + [Attempt(edge, Outcome(answer(last + 1)))] == Trail(candidates, answer, n)
            && Settled(candidates, answer, n, Response(last + 1), edge, Closing(current, closed))
  {
    hide Trail, Outcome, Responses, Settled;
    TrailSnoc(candidates, answer, last + 1);
    ResponsesSnoc(answer, last + 1);
    SettledWith(candidates, answer, last + 2, Closing(current, closed), last + 1);
  }

  lemma SettledWith(candidates: seq<string>, answer: nat -> Answer, n: nat, closed: seq<nat>, body: nat)
    requires body < n <= |candidates| && Responses(answer, n) == closed + [body]
    ensures Settled(candidates, answer, n, Response(body), candidates[body], closed)
  {
    hide Responses;
    var live := closed + [body];
    assert Last(live) == body && DropLast(live) == closed;
  }

  /** Without a final answer the fetch settles when the candidates are used up. */
  lemma FinishExhausted(candidates: seq<string>, answer: nat -> Answer, last: nat, trail: seq<Attempt>,
                        current: Option<nat>, currentErr: nat, currentEdge: string, closed: seq<nat>)
    requires Progress(candidates, answer, last, trail, current, currentErr, currentEdge, closed) && last + 1 == |candidates|
    ensures Attempts(candidates, answer, last + 1)
    ensures current.Some? ==> Settled(candidates, answer, last + 1, Response(current.value), currentEdge, closed)
    ensures current.None? ==> Settled(candidates, answer, last + 1, Error(currentErr), "", closed)
  {
    hide Trail, Responses;
    if current.Some? {
      SettledWith(candidates, answer, last + 1, closed, current.value);
    }
  }

  lemma FirstAttempt(candidates: seq<string>, answer: nat -> Answer)
    requires |candidates| > 0
    ensures var trail := [Attempt(candidates[0], Outcome(answer(0)))];
            trail == Trail(candidates, answer, 1)
            && (if Final(answer(0)) then Attempts(candidates, answer, 1) && Settled(candidates, answer, 1, Response(0), candidates[0], [])
                else Progress(candidates, answer, 0, trail, if answer(0).Status? then Some(0) else None, 0, candidates[0], []))
  {
    hide Outcome;
    ResponsesSnoc(answer, 0);
  }

  /** One plain attempt for every URL that is not on a numbered edge; otherwise the failover. */
  method Fetch(sourceUrl: string, host: Option<string>, edges: seq<string>, answer: nat -> Answer)
    returns (returned: Returned, served: string, trail: seq<Attempt>, closed: seq<nat>)
    ensures !(Contains(sourceUrl, ".solodcdn.com") && host.Some? && EdgeOf(host.value).Some?) ==>
              trail == [] && served == "" && closed == []
              && returned == if answer(0).Status? then Response(0) else Error(0)
    ensures Contains(sourceUrl, ".solodcdn.com") && host.Some? && EdgeOf(host.value).Some? ==>
              var candidates := Candidates(if edges == [] then ["p12", "p13", "p14"] else edges, EdgeOf(host.value).value);
              && 1 <= |trail| <= |candidates|
              && (forall i: nat :: i < |trail| && answer(i).Status? && answer(i).code < 500 ==>
                    i == |trail| - 1 && returned == Response(i))
              && (forall i: nat :: i < |trail| - 1 && answer(i).Status? ==> answer(i).code >= 500)
              && (|trail| < |candidates| ==> answer(|trail| - 1).Status? && answer(|trail| - 1).code < 500)
              && trail == Trail(candidates, answer, |trail|)
              && Settled(candidates, answer, |trail|, returned, served, closed)
  {
    if !Contains(sourceUrl, SUFFIX) || host.None? || EdgeOf(host.value).None? {
      returned := if answer(0).Status? then Response(0) else Error(0);
      return returned, "", [], [];
    }
    hide EdgeOf, Contains, IndexOf, Candidates, Settled, Trail;
    returned, served, trail, closed := FailOver(EdgeOf(host.value).value, if edges == [] then DEFAULT_EDGES else edges, answer);
  }

  method FailOver(nominal: string, pool: seq<string>, answer: nat -> Answer)
    returns (returned: Returned, served: string, trail: seq<Attempt>, closed: seq<nat>)
    ensures var candidates := Candidates(pool, nominal);
            && 1 <= |trail| <= |candidates|
            && (forall i: nat :: i < |trail| && answer(i).Status? && answer(i).code < 500 ==>
                  i == |trail| - 1 && returned == Response(i))
            && (forall i: nat :: i < |trail| - 1 && answer(i).Status? ==> answer(i).code >= 500)
            && (|trail| < |candidates| ==> answer(|trail| - 1).Status? && answer(|trail| - 1).code < 500)
            && trail == Trail(candidates, answer, |trail|)
            && Settled(candidates, answer, |trail|, returned, served, closed)
  {
    hide Siblings, Candidates, Trail, Outcome, Responses, Progress, Settled, Attempts;
    ghost var candidates := Candidates(pool, nominal);
    AllCandidates(pool, nominal);
    FirstAttempt(candidates, answer);
    closed := [];
    var first := answer(0);
    trail := [Attempt(nominal, Outcome(first))];
    if Final(first) {
      StopsByCode(candidates, answer, 1, Response(0), nominal, []);
      return Response(0), nominal, trail, closed;
    }
    var current: Option<nat> := if first.Status? then Some(0) else None;
    var currentErr, currentEdge, rotations := 0, nominal, 0;
    for i := 0 to |pool|
      invariant rotations <= MAX_ROTATIONS && |trail| == rotations + 1 <= |candidates|
      invariant rotations == |Siblings(pool[..i], nominal)| || (rotations == MAX_ROTATIONS < |Siblings(pool[..i], nominal)|)
      invariant trail == Trail(candidates, answer, rotations + 1)
      invariant Progress(candidates, answer, rotations, trail, current, currentErr, currentEdge, closed)
    {
      NextCandidate(pool, nominal, i);
      if rotations >= MAX_ROTATIONS {
        break;
      }
      var edge := pool[i];
      if edge != nominal {
        if Final(answer(rotations + 1)) {
          FinishEarly(candidates, answer, rotations, trail, current, currentErr, currentEdge, closed);
        } else {
          Advance(candidates, answer, rotations, trail, current, currentErr, currentEdge, closed);
        }
        rotations := rotations + 1;
        var reply := answer(rotations);
        trail := trail + [Attempt(edge, Outcome(reply))];
        if !reply.Status? {
          if current.None? {
            currentErr := rotations;
          }
        } else {
          if current.Some? {
            closed := closed + [current.value];
          }
          if Final(reply) {
            StopsByCode(candidates, answer, rotations + 1, Response(rotations), edge, closed);
            return Response(rotations), edge, trail, closed;
          }
          current, currentEdge := Some(rotations), edge;
        }
        TrailSnoc(candidates, answer, rotations);
      }
    }
    FinishExhausted(candidates, answer, rotations, trail, current, currentErr, currentEdge, closed);
    if current.Some? {
      StopsByCode(candidates, answer, rotations + 1, Response(current.value), currentEdge, closed);
      return Response(current.value), currentEdge, trail, closed;
    }
    StopsByCode(candidates, answer, rotations + 1, Error(currentErr), "", closed);
    return Error(currentErr), "", trail, closed;
  }

  lemma ResponsesSnoc(answer: nat -> Answer, n: nat)
    ensures Responses(answer, n + 1) == Responses(answer, n) + if answer(n).Status? then [n] else []
  {
  }

  // ----- what that means -----

  /** A host is a numbered edge exactly if, in lower case and up to its last colon, it reads p, one or more digits,
      then .solodcdn.com; the label is what stands before the dot. */
  lemma EdgeOfIff(host: string, edge: string)
    ensures EdgeOf(host) == Some(edge) <==>
              && |edge| >= 2 && edge[0] == 'p' && (forall i :: 1 <= i < |edge| ==> edge[i] in "0123456789")
              && (LowerAll(host) == edge + ".solodcdn.com"
                  || exists port: string :: ':' !in port && LowerAll(host) == edge + ".solodcdn.com:" + port)
  {
    hide IsEdgeLabel, LowerAll, WithoutPort;
    var lower := LowerAll(host);
    DigitsOnly(edge);
    if EdgeOf(host) == Some(edge) {
      CutAtLastColon(lower);
      var h := WithoutPort(lower);
      assert h == edge + SUFFIX;
      if ':' in lower {
        assert lower == edge + ".solodcdn.com:" + lower[|h| + 1..];
      }
    }
    if IsEdgeLabel(edge) {
      if lower == edge + ".solodcdn.com" {
        CutAtLastColon(lower);
        NoColonInEdge(edge);
        CutsToEdge(host, edge);
      } else if port: string :| ':' !in port && lower == edge + ".solodcdn.com:" + port {
        CutsBefore(edge + SUFFIX, port);
        assert lower == edge + SUFFIX + ":" + port;
        CutsToEdge(host, edge);
      }
    }
  }

  lemma CutsToEdge(host: string, edge: string)
    requires IsEdgeLabel(edge) && WithoutPort(LowerAll(host)) == edge + ".solodcdn.com"
    ensures EdgeOf(host) == Some(edge)
  {
    hide IsEdgeLabel, LowerAll, WithoutPort;
    var h := edge + SUFFIX;
    assert h[|h| - |SUFFIX|..] == SUFFIX && h[..|h| - |SUFFIX|] == edge;
  }

  /** Case does not matter. */
  lemma EdgeOfCase(host: string, other: string)
    requires |host| == |other|
    requires forall i :: 0 <= i < |host| ==>
               other[i] == host[i] || ('A' <= host[i] <= 'Z' && other[i] as int == host[i] as int + 32)
    ensures EdgeOf(host) == EdgeOf(other)
  {
    assert LowerAll(host) == LowerAll(other);
  }

  lemma DigitsOnly(edge: string)
    ensures IsEdgeLabel(edge) <==> |edge| >= 2 && edge[0] == 'p' && forall i :: 1 <= i < |edge| ==> edge[i] in "0123456789"
  {
    forall c: char ensures '0' <= c <= '9' <==> c in "0123456789" {
      if '0' <= c <= '9' {
        assert c == "0123456789"[c as int - '0' as int];
      }
    }
  }

  lemma NoColonInEdge(edge: string)
    requires IsEdgeLabel(edge)
    ensures ':' !in edge + ".solodcdn.com"
  {
    assert forall i :: 0 <= i < |edge| ==> edge[i] != ':';
  }

  lemma {:induction false} CutAtLastColon(s: string)
    ensures var h := WithoutPort(s);
            if ':' !in s then h == s else |h| < |s| && s[..|h|] == h && s[|h|] == ':' && ':' !in s[|h| + 1..]
    decreases |s|
  {
    if ':' in s {
      var front, last := s[..|s| - 1], s[|s| - 1];
      assert s == front + [last];
      if last != ':' {
        hide WithoutPort;
        CutAtLastColon(front);
        PortMore(s);
        var h := WithoutPort(front);
        assert s[..|h|] == front[..|h|] && s[|h|] == front[|h|];
        assert s[|h| + 1..] == front[|h| + 1..] + [last];
      }
    }
  }

  lemma PortMore(s: string)
    requires s != "" && s[|s| - 1] != ':' && ':' in s[..|s| - 1]
    ensures WithoutPort(s) == WithoutPort(s[..|s| - 1])
  {
    assert ':' in s;
  }

  lemma {:induction false} CutsBefore(h: string, port: string)
    requires ':' !in port
    ensures WithoutPort(h + ":" + port) == h
    decreases |port|
  {
    var s := h + ":" + port;
    assert s[|h|] == ':';
    if port == "" {
      assert s[..|s| - 1] == h;
    } else {
      assert s[..|s| - 1] == h + ":" + DropLast(port);
      CutsBefore(h, DropLast(port));
    }
  }

  /** At most three attempts: the nominal edge, then the first two pool entries that differ from it, in order. */
  lemma CandidateLaws(edges: seq<string>, nominal: string) returns (at: seq<nat>)
    ensures var c := Candidates(edges, nominal);
            && |c| == 1 + |at| <= 3 && c[0] == nominal
            && (forall k :: 0 <= k < |at| ==> at[k] < |edges| && edges[at[k]] != nominal && c[k + 1] == edges[at[k]])
            && (|at| == 2 ==> at[0] < at[1])
            && (forall j :: 0 <= j < |edges| && edges[j] != nominal && j !in at ==> |at| == 2 && at[1] < j)
  {
    at := SiblingsAt(edges, nominal);
    if |at| > 2 {
      at := at[..2];
    }
  }

  lemma {:induction false} SiblingsAt(edges: seq<string>, nominal: string) returns (at: seq<nat>)
    ensures var s := Siblings(edges, nominal);
            && |at| == |s|
            && (forall k :: 0 <= k < |at| ==> at[k] < |edges| && edges[at[k]] != nominal && s[k] == edges[at[k]])
            && (forall i, j :: 0 <= i < j < |at| ==> at[i] < at[j])
            && (forall j: nat :: j < |edges| && edges[j] != nominal ==> j in at)
    decreases |edges|
  {
    at := [];
    if edges != [] {
      var front, edge := DropLast(edges), Last(edges);
      assert edges == front + [edge];
      SiblingsSnoc(front, nominal, edge);
      at := SiblingsAt(front, nominal);
      if edge != nominal {
        at := at + [|front|];
      }
    }
  }

  /** The trail names the edges in order, each with what became of it. */
  lemma TrailReads(candidates: seq<string>, answer: nat -> Answer, n: nat, i: nat)
    requires i < n <= |candidates|
    ensures var t := Trail(candidates, answer, n);
            && |t| == n && t[i].edge == candidates[i]
            && (answer(i).Timeout? ==> t[i].outcome == "timeout") && (answer(i).DialError? ==> t[i].outcome == "dial_error")
            && (answer(i).Status? && answer(i).code >= 500 ==> t[i].outcome == "http5xx")
            && (answer(i).Status? && 400 <= answer(i).code < 500 ==> t[i].outcome == "http4xx")
            && (answer(i).Status? && answer(i).code < 400 ==> t[i].outcome == "ok")
  {
    var t := Trail(candidates, answer, n);
    assert t[i] == Attempt(candidates[i], Outcome(answer(i)));
  }

  /** The stopping rule in the codes of the answers. */
  lemma StopsByCode(candidates: seq<string>, answer: nat -> Answer, n: nat, returned: Returned, served: string, closed: seq<nat>)
    requires Attempts(candidates, answer, n) && Settled(candidates, answer, n, returned, served, closed)
    ensures forall i: nat :: i < n && answer(i).Status? && answer(i).code < 500 ==> i == n - 1 && returned == Response(i)
    ensures forall i: nat :: i < n - 1 && answer(i).Status? ==> answer(i).code >= 500
    ensures n < |candidates| ==> answer(n - 1).Status? && answer(n - 1).code < 500
  {
    ResponsesBelow(answer, n);
    var live := Responses(answer, n);
    forall i: nat | i < n && answer(i).Status? && answer(i).code < 500 ensures i == n - 1 && returned == Response(i) {
      assert i in live;
    }
  }

  /** Every response body is closed exactly once except the returned one, which is never closed and is the last one
      there was; an error is returned, the last one, only if every attempt failed in transport. */
  lemma Ownership(candidates: seq<string>, answer: nat -> Answer, n: nat, returned: Returned, served: string, closed: seq<nat>)
    requires Attempts(candidates, answer, n) && Settled(candidates, answer, n, returned, served, closed)
    ensures forall i: nat :: i < n && answer(i).Status? ==>
              Times(closed, i) == if returned == Response(i) then 0 else 1
    ensures forall i :: i in closed ==> i < n && answer(i).Status?
    ensures returned.Response? ==> returned.body < n && answer(returned.body).Status? && served == candidates[returned.body]
                                   && forall k: nat :: returned.body < k < n ==> !answer(k).Status?
    ensures forall i: nat :: i < n && answer(i).Status? && answer(i).code < 500 ==> i == n - 1 && returned == Response(i)
    ensures returned.Error? <==> forall i: nat :: i < n ==> !answer(i).Status?
    ensures returned.Error? ==> returned.attempt == n - 1 && served == ""
  {
    hide Attempts;
    StopsByCode(candidates, answer, n, returned, served, closed);
    ResponsesBelow(answer, n);
    hide Responses;
    var live := Responses(answer, n);
    if live != [] {
      LastOfIncreasing(live);
      hide Increasing;
      Distinct(live);
      assert live == DropLast(live) + [Last(live)];
      forall i: nat | i < n && answer(i).Status? ensures Times(closed, i) == if returned == Response(i) then 0 else 1 {
        assert i in live;
        assert Times(live, i) == Times(DropLast(live), i) + if Last(live) == i then 1 else 0;
      }
    }
  }

  lemma LastOfIncreasing(s: seq<nat>)
    requires Increasing(s) && s != []
    ensures forall x :: x in s ==> x <= Last(s)
    ensures forall x :: x in DropLast(s) ==> x in s
  {
  }

  /** How often `x` occurs. */
  function Times(s: seq<nat>, x: nat): nat {
    if s == [] then 0 else Times(DropLast(s), x) + if Last(s) == x then 1 else 0
  }

  lemma {:induction false} TimesAbsent(s: seq<nat>, x: nat)
    requires x !in s
    ensures Times(s, x) == 0
    decreases |s|
  {
    if s != [] {
      assert s == DropLast(s) + [Last(s)];
      TimesAbsent(DropLast(s), x);
    }
  }

  lemma {:induction false} Distinct(s: seq<nat>)
    requires Increasing(s)
    ensures forall x :: x in s ==> Times(s, x) == 1
    decreases |s|
  {
    if s != [] {
      var front := DropLast(s);
      assert s == front + [Last(s)];
      Distinct(front);
      TimesAbsent(front, Last(s));
    }
  }
}
