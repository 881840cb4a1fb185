/**
 * The second-level router `_Router` of web/main.py.
 *
 * A router owns a prefix such as `/python`, a table of routes compiled
 * from templates, its own request and response interceptors and a nested
 * context. A request whose path starts with the prefix goes through the
 * request interceptors; the first route whose methods accept the request
 * and whose pattern matches the path with the prefix removed casts its
 * captures, calls its handler and passes the response through the
 * response interceptors.
 *
 * Handlers, interceptors and the regular-expression engine are code the
 * model cannot see: they are function values, and the engine is a
 * parameter that stands for `re.compile(pattern).match(subject)`.
 */
module Routing {
  import opened Wrappers
  import opened Errors
  import opened Contexts
  import Templates

  /** The parts of a webob request the router reads or writes. */
  datatype Request = Request(verb: string, path: string, vars: Option<VarBag>)

  datatype Response = Response(status: string, body: string)

  /** What a handler or interceptor hands back; None is Python's None, the only falsy reply modelled. */
  type Reply = Option<Response>

  type Handler = Request -> Reply

  /** `fn(ctx, request)`; the context is seen as its entries. */
  type PreInterceptor = (map<string, Value>, Request) -> Request

  /** `fn(ctx, request, response)` */
  type PostInterceptor = (map<string, Value>, Request, Reply) -> Reply

  /** `re.compile(pattern).match(subject)`: on a match, the named groups and their text in group order. */
  type Engine = (string, string) -> Option<seq<(string, string)>>

  /** A row of the route table: accepted methods, compiled pattern, casts and handler. */
  datatype RouteEntry = RouteEntry(methods: seq<string>, pattern: string, casts: map<string, Templates.Cast>, handler: Handler)

  // ---------------------------------------------------------------------
  // String helpers with Python's meaning
  // ---------------------------------------------------------------------

  predicate IsSep(c: char)
  {
    c == '/' || c == '\\'
  }

  /** `s.rstrip('/\\')`: the longest prefix of `s` that does not end in `/` or `\`. */
  function StripTrailing(s: string): (r: string)
    ensures r <= s
    ensures r == [] || !IsSep(r[|r| - 1])
    ensures forall i :: |r| <= i < |s| ==> IsSep(s[i])
    decreases |s|
  {
    if |s| > 0 && IsSep(s[|s| - 1]) then StripTrailing(s[..|s| - 1]) else s
  }

  /** `pat` occurs in `s` at position `i`. */
  predicate OccursAt(pat: string, s: string, i: nat)
  {
    i + |pat| <= |s| && s[i..i + |pat|] == pat
  }

  /** `s.replace(pat, '')`: every occurrence, leftmost first and without overlap, is removed. */
  function RemoveAll(s: string, pat: string): (r: string)
    ensures |r| <= |s|
    ensures pat == [] || |s| < |pat| ==> r == s
    decreases |s|
  {
    if pat == [] || |s| < |pat| then s
    else if s[..|pat|] == pat then RemoveAll(s[|pat|..], pat)
    else [s[0]] + RemoveAll(s[1..], pat)
  }

  /** A text in which `pat` does not occur is left as it is. */
  lemma {:induction false} RemoveAbsent(s: string, pat: string)
    requires forall i :: 0 <= i <= |s| ==> !OccursAt(pat, s, i)
    ensures RemoveAll(s, pat) == s
    decreases |s|
  {
    if pat != [] && |s| >= |pat| {
      assert !OccursAt(pat, s, 0);
      assert s[..|pat|] != pat;
      forall i | 0 <= i <= |s[1..]| ensures !OccursAt(pat, s[1..], i) {
        assert !OccursAt(pat, s, i + 1);
        if i + |pat| <= |s[1..]| {
          assert s[1..][i..i + |pat|] == s[i + 1..i + 1 + |pat|];
        }
      }
      RemoveAbsent(s[1..], pat);
      assert [s[0]] + s[1..] == s;
    }
  }

  /**
   * With a prefix that occurs nowhere after it, removing every occurrence
   * is stripping the prefix: `/python/devops` becomes `/devops`.
   */
  lemma RemovePrefix(path: string, prefix: string)
    requires prefix != [] && prefix <= path
    requires forall i :: 0 <= i <= |path| - |prefix| ==> !OccursAt(prefix, path[|prefix|..], i)
    ensures RemoveAll(path, prefix) == path[|prefix|..]
  {
    assert path[..|prefix|] == prefix;
    RemoveAbsent(path[|prefix|..], prefix);
  }

  /** Occurrences further along the path are removed too: `/py/x/py` with prefix `/py` becomes `/x`. */
  lemma RemoveLaterOccurrence()
    ensures RemoveAll("/py/x/py", "/py") == "/x"
  {
    assert "/py/x/py"[..3] == "/py" && "/py/x/py"[3..] == "/x/py";
    assert "/x/py"[1] != "/py"[1] && "/x/py"[1..] == "x/py";
    assert "x/py"[0] != "/py"[0] && "x/py"[1..] == "/py";
    assert "/py"[..3] == "/py" && "/py"[3..] == "";
  }

  /** Removing a pattern that occurs somewhere in the text shortens the text. */
  lemma {:induction false} RemoveOccurrenceShortens(s: string, pat: string, i: nat)
    requires pat != [] && OccursAt(pat, s, i)
    ensures |RemoveAll(s, pat)| < |s|
    decreases |s|
  {
    if s[..|pat|] != pat {
      assert s[1..][i - 1..i - 1 + |pat|] == s[i..i + |pat|];
      RemoveOccurrenceShortens(s[1..], pat, i - 1);
    }
  }

  /**
   * `replace(prefix, '')` is no prefix strip: when the prefix occurs again
   * further along the path, more than the leading prefix is removed.
   */
  lemma RemoveMoreThanPrefix(path: string, prefix: string, i: nat)
    requires prefix != [] && prefix <= path && OccursAt(prefix, path[|prefix|..], i)
    ensures |RemoveAll(path, prefix)| < |path| - |prefix|
  {
    assert path[..|prefix|] == prefix;
    RemoveOccurrenceShortens(path[|prefix|..], prefix, i);
  }

  /** The empty prefix of a router built with `''` removes nothing. */
  lemma RemoveEmpty(s: string)
    ensures RemoveAll(s, "") == s
  {
  }

  predicate IsLower(c: char)
  {
    'a' <= c <= 'z'
  }

  /** `str.upper()` on ASCII letters. */
  function UpperChar(c: char): (u: char)
    ensures !IsLower(u)
    ensures IsLower(c) ==> u as int == c as int - 32 && 'A' <= u <= 'Z'
    ensures !IsLower(c) ==> u == c
  {
    if IsLower(c) then (c as int - 32) as char else c
  }

  function Upper(s: string): (u: string)
    ensures |u| == |s|
    ensures forall i :: 0 <= i < |s| ==> u[i] == UpperChar(s[i])
  {
    seq(|s|, i requires 0 <= i < |s| => UpperChar(s[i]))
  }

  /** `not methods or request.method.upper() in methods` */
  predicate Accepts(methods: seq<string>, verb: string)
    ensures |methods| == 0 ==> Accepts(methods, verb)
    ensures Accepts(methods, verb) && |methods| > 0 ==> Upper(verb) in methods
  {
    |methods| == 0 || Upper(verb) in methods
  }

  /** A name without lower-case letters is its own upper case. */
  lemma {:induction false} UpperKeeps(s: string)
    requires forall i :: 0 <= i < |s| ==> !IsLower(s[i])
    ensures Upper(s) == s
  {
    assert forall i :: 0 <= i < |s| ==> Upper(s)[i] == s[i];
  }

  /** Two verbs that differ only in the case of ASCII letters are accepted alike. */
  lemma SameUpperAcceptedAlike(methods: seq<string>, a: string, b: string)
    requires |a| == |b| && forall i :: 0 <= i < |a| ==> UpperChar(a[i]) == UpperChar(b[i])
    ensures Accepts(methods, a) <==> Accepts(methods, b)
  {
    assert forall i :: 0 <= i < |a| ==> Upper(a)[i] == Upper(b)[i];
    assert Upper(a) == Upper(b);
  }

  /**
   * A verb is accepted, in any case, by a route that lists it in capitals:
   * `GET` and `get` both reach a route registered with `'GET'`.
   */
  lemma ListedVerbAccepted(methods: seq<string>, name: string, verb: string)
    requires name in methods && forall i :: 0 <= i < |name| ==> !IsLower(name[i])
    requires |verb| == |name| && forall i :: 0 <= i < |verb| ==> UpperChar(verb[i]) == name[i]
    ensures Accepts(methods, verb)
  {
    UpperKeeps(name);
    assert forall i :: 0 <= i < |verb| ==> Upper(verb)[i] == name[i];
    assert Upper(verb) == name;
  }

  /** The example of the case rule: `get` reaches a route registered with `'GET'`. */
  lemma LowerGetAccepted()
    ensures Accepts(["GET"], "get") && Accepts(["GET"], "GET")
  {
    ListedVerbAccepted(["GET"], "GET", "get");
    ListedVerbAccepted(["GET"], "GET", "GET");
  }

  /** A route registered only with names holding a lower-case letter accepts no request at all. */
  lemma LowerCaseNeverAccepted(methods: seq<string>, verb: string)
    requires |methods| > 0
    requires forall i :: 0 <= i < |methods| ==> exists j :: 0 <= j < |methods[i]| && IsLower(methods[i][j])
    ensures !Accepts(methods, verb)
  {
    if Upper(verb) in methods {
      assert false;
    }
  }

  // ---------------------------------------------------------------------
  // Casting the captures
  // ---------------------------------------------------------------------

  predicate IsDigit(c: char)
  {
    '0' <= c <= '9'
  }

  predicate AllDigits(s: string)
  {
    forall i :: 0 <= i < |s| ==> IsDigit(s[i])
  }

  /** The value of a decimal numeral. */
  function DigitsValue(s: string): nat
    requires AllDigits(s)
  {
    if s == [] then 0 else 10 * DigitsValue(s[..|s| - 1]) + (s[|s| - 1] as int - '0' as int)
  }

  /** `int(text)` on an optional sign followed by ASCII digits; anything else is a ValueError. */
  function ParseInt(text: string): (r: Result<int, Error>)
    ensures r.Err? ==> r.error == ValueError
    ensures r.Ok? ==> exists d :: |d| > 0 && AllDigits(d) && (text == d || text == "+" + d || text == "-" + d)
  {
    var neg := |text| > 0 && text[0] == '-';
    var digits := if |text| > 0 && (text[0] == '+' || text[0] == '-') then text[1..] else text;
    if |digits| > 0 && AllDigits(digits) then
      var v: int := DigitsValue(digits);
      Ok(if neg then -v else v)
    else Err(ValueError)
  }

  /**
   * `int(text)` accepts every non-empty run of ASCII digits and gives its
   * value. With the sign case below, the converse of `ParseInt`'s second
   * `ensures`: it succeeds exactly on such a run with an optional sign.
   */
  lemma ParseIntDigits(d: string)
    requires |d| > 0 && AllDigits(d)
    ensures ParseInt(d) == Ok(DigitsValue(d))
  {
    assert IsDigit(d[0]);
  }

  /** The same with a leading `+` or `-`, which gives the value its sign. */
  lemma ParseIntSigned(text: string)
    requires |text| > 1 && (text[0] == '+' || text[0] == '-') && AllDigits(text[1..])
    ensures ParseInt(text) == Ok(if text[0] == '-' then 0 - DigitsValue(text[1..]) else DigitsValue(text[1..]))
  {
  }

  /** Text that is not such a numeral is a ValueError: `int('abc')` and `int('4.2')` raise. */
  lemma ParseIntRejects()
    ensures ParseInt("abc") == Err(ValueError) && ParseInt("4.2") == Err(ValueError)
    ensures ParseInt("") == Err(ValueError) && ParseInt("-") == Err(ValueError)
  {
    assert !IsDigit("abc"[0]);
    assert !IsDigit("4.2"[1]);
    assert "-"[1..] == "";
  }

  /** The decimal numeral of a natural number. */
  function ShowNat(n: nat): (s: string)
    ensures |s| > 0 && AllDigits(s)
  {
    if n < 10 then [('0' as int + n) as char] else ShowNat(n / 10) + [('0' as int + n % 10) as char]
  }

  /** `str(n)` */
  function ShowInt(n: int): string
  {
    if n < 0 then "-" + ShowNat(-n) else ShowNat(n)
  }

  lemma {:induction false} DigitsOfShow(n: nat)
    ensures DigitsValue(ShowNat(n)) == n
  {
    if n >= 10 {
      var s := ShowNat(n);
      assert s[..|s| - 1] == ShowNat(n / 10);
      DigitsOfShow(n / 10);
    }
  }

  /** `int(str(n)) == n`: every integer the `int` sub-pattern is meant for reads back as itself. */
  lemma ParseShow(n: int)
    ensures ParseInt(ShowInt(n)) == Ok(n)
  {
    var m: nat := if n < 0 then -n else n;
    var d := ShowNat(m);
    DigitsOfShow(m);
    assert IsDigit(d[0]);
    if n < 0 {
      assert ShowInt(n) == "-" + d;
      assert ("-" + d)[1..] == d;
    } else {
      assert ShowInt(n) == d;
    }
  }

  /** `type[k](v)`: a name without a cast is a KeyError, an `int` capture that is no integer a ValueError. */
  function CastCapture(casts: map<string, Templates.Cast>, name: string, text: string): (r: Result<Value, Error>)
    ensures r.Err? <==> name !in casts || (casts[name] == Templates.Int && ParseInt(text).Err?)
    ensures r.Err? ==> (r.error == KeyError <==> name !in casts)
    ensures r.Err? && name in casts ==> r.error == ValueError
    ensures r.Ok? && casts[name] == Templates.Str ==> r.value == StrValue(text)
    ensures r.Ok? && casts[name] == Templates.Int ==> ParseInt(text).Ok? && r.value == IntValue(ParseInt(text).value)
    ensures r.Ok? && casts[name] == Templates.Float ==> r.value == FloatValue(text)
  {
    if name !in casts then Err(KeyError)
    else match casts[name]
      case Str => Ok(StrValue(text))
      case Int => (match ParseInt(text) case Ok(n) => Ok(IntValue(n)) case Err(e) => Err(e))
      case Float => Ok(FloatValue(text))
  }

  /** A capture typed `int` holding the numeral of `n` is cast to the integer `n`: `/20` gives `vars.id == 20`. */
  lemma CastIntShow(casts: map<string, Templates.Cast>, name: string, n: int)
    requires name in casts && casts[name] == Templates.Int
    ensures CastCapture(casts, name, ShowInt(n)) == Ok(IntValue(n))
  {
    ParseShow(n);
  }

  /** The `new_dict` loop: captures cast in group order onto `acc`; the first failing cast ends it. */
  function CastFrom(groups: seq<(string, string)>, casts: map<string, Templates.Cast>, acc: map<string, Value>): (r: Result<map<string, Value>, Error>)
    ensures r.Err? ==> r.error == KeyError || r.error == ValueError
    decreases |groups|
  {
    if groups == [] then Ok(acc)
    else match CastCapture(casts, groups[0].0, groups[0].1)
      case Err(e) => Err(e)
      case Ok(v) => CastFrom(groups[1..], casts, acc[groups[0].0 := v])
  }

  /** The casts succeed exactly when every capture casts on its own. */
  lemma {:induction false} CastFromOk(groups: seq<(string, string)>, casts: map<string, Templates.Cast>, acc: map<string, Value>)
    ensures CastFrom(groups, casts, acc).Ok? <==> forall i :: 0 <= i < |groups| ==> CastCapture(casts, groups[i].0, groups[i].1).Ok?
    decreases |groups|
  {
    if groups != [] {
      var c := CastCapture(casts, groups[0].0, groups[0].1);
      if c.Ok? {
        CastFromOk(groups[1..], casts, acc[groups[0].0 := c.value]);
        assert forall i :: 1 <= i < |groups| ==> groups[i] == groups[1..][i - 1];
      }
    }
  }

  /** On success every captured name is bound to its cast value, and no other name is added. */
  lemma {:induction false} CastFromValues(groups: seq<(string, string)>, casts: map<string, Templates.Cast>, acc: map<string, Value>)
    requires CastFrom(groups, casts, acc).Ok?
    requires forall i, j :: 0 <= i < j < |groups| ==> groups[i].0 != groups[j].0
    ensures forall k :: k in CastFrom(groups, casts, acc).value <==> k in acc || exists i :: 0 <= i < |groups| && groups[i].0 == k
    ensures forall i :: 0 <= i < |groups| ==>
              (CastCapture(casts, groups[i].0, groups[i].1).Ok?
               && CastFrom(groups, casts, acc).value[groups[i].0] == CastCapture(casts, groups[i].0, groups[i].1).value)
    decreases |groups|
  {
    if groups != [] {
      var acc' := acc[groups[0].0 := CastCapture(casts, groups[0].0, groups[0].1).value];
      var rest := groups[1..];
      CastFromValues(rest, casts, acc');
      assert forall i :: 0 <= i < |rest| ==> rest[i] == groups[i + 1];
      forall k | k in CastFrom(groups, casts, acc).value
        ensures k in acc || exists i :: 0 <= i < |groups| && groups[i].0 == k
      {
        if k !in acc && k != groups[0].0 {
          var i :| 0 <= i < |rest| && rest[i].0 == k;
          assert groups[i + 1].0 == k;
        }
      }
      forall k | exists i :: 0 <= i < |groups| && groups[i].0 == k
        ensures k in CastFrom(groups, casts, acc).value
      {
        var i :| 0 <= i < |groups| && groups[i].0 == k;
        if i > 0 {
          assert rest[i - 1].0 == k;
        }
      }
      forall i | 0 <= i < |groups|
        ensures CastCapture(casts, groups[i].0, groups[i].1).Ok?
          && CastFrom(groups, casts, acc).value[groups[i].0] == CastCapture(casts, groups[i].0, groups[i].1).value
      {
        if i > 0 {
          assert rest[i - 1] == groups[i];
        } else {
          CastFromKeeps(rest, casts, acc', groups[0].0);
        }
      }
    }
  }

  /** A name no capture carries keeps the value it had. */
  lemma {:induction false} CastFromKeeps(groups: seq<(string, string)>, casts: map<string, Templates.Cast>, acc: map<string, Value>, k: string)
    requires CastFrom(groups, casts, acc).Ok? && k in acc
    requires forall i :: 0 <= i < |groups| ==> groups[i].0 != k
    ensures k in CastFrom(groups, casts, acc).value && CastFrom(groups, casts, acc).value[k] == acc[k]
    decreases |groups|
  {
    if groups != [] {
      assert groups[0].0 != k;
      var acc' := acc[groups[0].0 := CastCapture(casts, groups[0].0, groups[0].1).value];
      assert forall i :: 0 <= i < |groups[1..]| ==> groups[1..][i] == groups[i + 1];
      CastFromKeeps(groups[1..], casts, acc', k);
    }
  }

  /** The loop that fills `new_dict`. */
  method CastCaptures(groups: seq<(string, string)>, casts: map<string, Templates.Cast>) returns (r: Result<map<string, Value>, Error>)
    ensures r == CastFrom(groups, casts, map[])
  {
    var newDict := map[];
    var i := 0;
    while i < |groups|
      invariant 0 <= i <= |groups|
      invariant CastFrom(groups[i..], casts, newDict) == CastFrom(groups, casts, map[])
    {
      var c := CastCapture(casts, groups[i].0, groups[i].1);
      if c.Err? {
        return Err(c.error);
      }
      assert groups[i..][1..] == groups[i + 1..];
      newDict := newDict[groups[i].0 := c.value];
      i := i + 1;
    }
    return Ok(newDict);
  }

  // ---------------------------------------------------------------------
  // Interceptor chains
  // ---------------------------------------------------------------------

  /** The four interceptor lists: a router's and the application's, for requests and for responses. */
  datatype Stage = RouterRequest | RouterResponse | AppRequest | AppResponse

  /** What ran while a request was served: the `k`-th interceptor of a list, or a route's handler. */
  datatype Event = Intercepted(stage: Stage, k: nat) | Handled(route: nat)

  /** The interceptors of a list of `n`, each called once, in registration order. */
  function Calls(stage: Stage, n: nat): (t: seq<Event>)
    ensures |t| == n
    ensures forall k :: 0 <= k < n ==> t[k] == Intercepted(stage, k)
  {
    if n == 0 then [] else Calls(stage, n - 1) + [Intercepted(stage, n - 1)]
  }

  /** No interceptor of `stage` ran. */
  predicate NoneRan(t: seq<Event>, stage: Stage)
  {
    forall k :: 0 <= k < |t| ==> !(t[k].Intercepted? && t[k].stage == stage)
  }

  /** A trace made of two parts has an interceptor of `stage` exactly when one of the parts has. */
  lemma NoneRanConcat(a: seq<Event>, b: seq<Event>, stage: Stage)
    ensures NoneRan(a + b, stage) <==> NoneRan(a, stage) && NoneRan(b, stage)
  {
    if NoneRan(a, stage) && NoneRan(b, stage) {
      forall k | 0 <= k < |a + b|
        ensures !((a + b)[k].Intercepted? && (a + b)[k].stage == stage)
      {
        if k >= |a| {
          assert (a + b)[k] == b[k - |a|];
        }
      }
    }
    if NoneRan(a + b, stage) {
      forall k | 0 <= k < |a|
        ensures !(a[k].Intercepted? && a[k].stage == stage)
      {
        assert (a + b)[k] == a[k];
      }
      forall k | 0 <= k < |b|
        ensures !(b[k].Intercepted? && b[k].stage == stage)
      {
        assert (a + b)[|a| + k] == b[k];
      }
    }
  }

  /** The request after the interceptors, in registration order. */
  function ApplyPre(fns: seq<PreInterceptor>, ctx: map<string, Value>, req: Request): (r: Request)
    ensures fns == [] ==> r == req
    ensures |fns| == 1 ==> r == fns[0](ctx, req)
    decreases |fns|
  {
    if fns == [] then req else ApplyPre(fns[1..], ctx, fns[0](ctx, req))
  }

  /** The reply after the interceptors, in registration order. */
  function ApplyPost(fns: seq<PostInterceptor>, ctx: map<string, Value>, req: Request, reply: Reply): (r: Reply)
    ensures fns == [] ==> r == reply
    ensures |fns| == 1 ==> r == fns[0](ctx, req, reply)
    decreases |fns|
  {
    if fns == [] then reply else ApplyPost(fns[1..], ctx, req, fns[0](ctx, req, reply))
  }

  /** An interceptor registered last runs last, on what the earlier ones produced. */
  lemma {:induction false} PreRegisteredLast(fns: seq<PreInterceptor>, f: PreInterceptor, ctx: map<string, Value>, req: Request)
    ensures ApplyPre(fns + [f], ctx, req) == f(ctx, ApplyPre(fns, ctx, req))
    decreases |fns|
  {
    if fns != [] {
      assert (fns + [f])[1..] == fns[1..] + [f];
      PreRegisteredLast(fns[1..], f, ctx, fns[0](ctx, req));
    }
  }

  lemma {:induction false} PostRegisteredLast(fns: seq<PostInterceptor>, f: PostInterceptor, ctx: map<string, Value>, req: Request, reply: Reply)
    ensures ApplyPost(fns + [f], ctx, req, reply) == f(ctx, req, ApplyPost(fns, ctx, req, reply))
    decreases |fns|
  {
    if fns != [] {
      assert (fns + [f])[1..] == fns[1..] + [f];
      PostRegisteredLast(fns[1..], f, ctx, req, fns[0](ctx, req, reply));
    }
  }

  /** `for fn in interceptors: request = fn(ctx, request)`, with the calls it makes. */
  method RunPre(fns: seq<PreInterceptor>, stage: Stage, ctx: map<string, Value>, req: Request) returns (r: Request, trace: seq<Event>)
    ensures r == ApplyPre(fns, ctx, req)
    ensures trace == Calls(stage, |fns|)
  {
    r := req;
    trace := [];
    var i := 0;
    while i < |fns|
      invariant 0 <= i <= |fns|
      invariant ApplyPre(fns[i..], ctx, r) == ApplyPre(fns, ctx, req)
      invariant trace == Calls(stage, i)
    {
      assert fns[i..][1..] == fns[i + 1..];
      r := fns[i](ctx, r);
      trace := trace + [Intercepted(stage, i)];
      i := i + 1;
    }
  }

  /** `for fn in interceptors: response = fn(ctx, request, response)`, with the calls it makes. */
  method RunPost(fns: seq<PostInterceptor>, stage: Stage, ctx: map<string, Value>, req: Request, reply: Reply) returns (r: Reply, trace: seq<Event>)
    ensures r == ApplyPost(fns, ctx, req, reply)
    ensures trace == Calls(stage, |fns|)
  {
    r := reply;
    trace := [];
    var i := 0;
    while i < |fns|
      invariant 0 <= i <= |fns|
      invariant ApplyPost(fns[i..], ctx, req, r) == ApplyPost(fns, ctx, req, reply)
      invariant trace == Calls(stage, i)
    {
      assert fns[i..][1..] == fns[i + 1..];
      r := fns[i](ctx, req, r);
      trace := trace + [Intercepted(stage, i)];
      i := i + 1;
    }
  }

  // ---------------------------------------------------------------------
  // Matching a request
  // ---------------------------------------------------------------------

  /** What the router reads when it matches: prefix, table, interceptors and its context's entries. */
  datatype RouterState = RouterState(
    prefix: string,
    table: seq<RouteEntry>,
    pre: seq<PreInterceptor>,
    post: seq<PostInterceptor>,
    ctx: map<string, Value>)

  /**
   * What `route_match` returns, which route's handler ran (None when none
   * did) and what ran, in order. An exception from a cast is an `Err` reply.
   */
  datatype Attempt = Attempt(reply: Result<Reply, Error>, handled: Option<nat>, trace: seq<Event>)

  /** The captures of `entry` for the request, if its methods accept it and its pattern matches. */
  function Hit(entry: RouteEntry, req: Request, prefix: string, engine: Engine): Option<seq<(string, string)>>
  {
    if Accepts(entry.methods, req.verb) then engine(entry.pattern, RemoveAll(req.path, prefix)) else None
  }

  /** The first route at or after `from` that hits, with its captures. */
  function FirstHit(table: seq<RouteEntry>, from: nat, req: Request, prefix: string, engine: Engine): (r: Option<(nat, seq<(string, string)>)>)
    requires from <= |table|
    ensures r.Some? ==> from <= r.value.0 < |table|
    decreases |table| - from
  {
    if from == |table| then None
    else match Hit(table[from], req, prefix, engine)
      case Some(groups) => Some((from, groups))
      case None => FirstHit(table, from + 1, req, prefix, engine)
  }

  /** The first hit is a hit, and no route between `from` and it hits. */
  lemma {:induction false} FirstHitSound(table: seq<RouteEntry>, from: nat, req: Request, prefix: string, engine: Engine)
    requires from <= |table|
    ensures FirstHit(table, from, req, prefix, engine).Some? ==>
      var (i, groups) := FirstHit(table, from, req, prefix, engine).value;
      from <= i < |table| && Hit(table[i], req, prefix, engine) == Some(groups)
      && forall j :: from <= j < i ==> Hit(table[j], req, prefix, engine).None?
    ensures FirstHit(table, from, req, prefix, engine).None? ==>
      forall j :: from <= j < |table| ==> Hit(table[j], req, prefix, engine).None?
    decreases |table| - from
  {
    if from < |table| && Hit(table[from], req, prefix, engine).None? {
      FirstHitSound(table, from + 1, req, prefix, engine);
    }
  }

  /** Conversely, a hit with no hit before it is the first hit. */
  lemma {:induction false} FirstHitFinds(table: seq<RouteEntry>, from: nat, i: nat, req: Request, prefix: string, engine: Engine)
    requires from <= i < |table| && Hit(table[i], req, prefix, engine).Some?
    requires forall j :: from <= j < i ==> Hit(table[j], req, prefix, engine).None?
    ensures FirstHit(table, from, req, prefix, engine) == Some((i, Hit(table[i], req, prefix, engine).value))
    decreases i - from
  {
    if from < i {
      FirstHitFinds(table, from + 1, i, req, prefix, engine);
    }
  }

  /**
   * `route_match`, as a function of the router's state. Outside the prefix
   * nothing runs; under it every request interceptor runs, and the response
   * interceptors run only after the handler of the route that answers.
   */
  function Match(st: RouterState, req: Request, engine: Engine): (a: Attempt)
    ensures !(st.prefix <= req.path) ==> a == Attempt(Ok(None), None, [])
    ensures a.reply.Err? ==> a.reply.error == KeyError || a.reply.error == ValueError
    ensures a.handled.Some? ==> a.handled.value < |st.table| && a.reply.Ok?
    ensures a.handled.None? && st.prefix <= req.path ==> a.trace == Calls(RouterRequest, |st.pre|)
    ensures a.handled.Some? ==> a.trace == Calls(RouterRequest, |st.pre|) + [Handled(a.handled.value)] + Calls(RouterResponse, |st.post|)
  {
    if !(st.prefix <= req.path) then Attempt(Ok(None), None, [])
    else
      var r := ApplyPre(st.pre, st.ctx, req);
      var requested := Calls(RouterRequest, |st.pre|);
      match FirstHit(st.table, 0, r, st.prefix, engine)
      case None => Attempt(Ok(None), None, requested)
      case Some((i, groups)) =>
        match CastFrom(groups, st.table[i].casts, map[])
        case Err(e) => Attempt(Err(e), None, requested)
        case Ok(vars) =>
          var r2 := r.(vars := Some(Wrap(DictValue(vars))));
          Attempt(Ok(ApplyPost(st.post, st.ctx, r2, st.table[i].handler(r2))), Some(i),
                  requested + [Handled(i)] + Calls(RouterResponse, |st.post|))
  }

  /**
   * A handler runs only for a path under the prefix, and only the first
   * route that accepts the intercepted request's method and whose pattern
   * matches its path with the prefix removed.
   */
  lemma HandlerOnlyOnHit(st: RouterState, req: Request, engine: Engine)
    ensures Match(st, req, engine).handled.Some? ==>
      var i := Match(st, req, engine).handled.value;
      var r := ApplyPre(st.pre, st.ctx, req);
      st.prefix <= req.path && i < |st.table|
      && Accepts(st.table[i].methods, r.verb)
      && engine(st.table[i].pattern, RemoveAll(r.path, st.prefix)).Some?
      && forall j :: 0 <= j < i ==> Hit(st.table[j], r, st.prefix, engine).None?
  {
    if st.prefix <= req.path {
      FirstHitSound(st.table, 0, ApplyPre(st.pre, st.ctx, req), st.prefix, engine);
    }
  }

  /** A path outside the prefix gets None, and a path no route hits gets None as well. */
  lemma NoHitNoReply(st: RouterState, req: Request, engine: Engine)
    requires !(st.prefix <= req.path)
      || forall j :: 0 <= j < |st.table| ==> Hit(st.table[j], ApplyPre(st.pre, st.ctx, req), st.prefix, engine).None?
    ensures Match(st, req, engine).reply == Ok(None) && Match(st, req, engine).handled == None
  {
    if st.prefix <= req.path {
      var r := ApplyPre(st.pre, st.ctx, req);
      FirstHitSound(st.table, 0, r, st.prefix, engine);
    }
  }

  /**
   * The first route that hits answers: its captures are cast, set as
   * `request.vars`, its handler is called and the response interceptors
   * run on what it returns.
   */
  lemma FirstRouteWins(st: RouterState, req: Request, engine: Engine, i: nat, vars: map<string, Value>)
    requires st.prefix <= req.path && i < |st.table|
    requires Hit(st.table[i], ApplyPre(st.pre, st.ctx, req), st.prefix, engine).Some?
    requires forall j :: 0 <= j < i ==> Hit(st.table[j], ApplyPre(st.pre, st.ctx, req), st.prefix, engine).None?
    requires CastFrom(Hit(st.table[i], ApplyPre(st.pre, st.ctx, req), st.prefix, engine).value, st.table[i].casts, map[]) == Ok(vars)
    ensures var r2 := ApplyPre(st.pre, st.ctx, req).(vars := Some(VarBag(vars)));
      Match(st, req, engine).reply == Ok(ApplyPost(st.post, st.ctx, r2, st.table[i].handler(r2)))
      && Match(st, req, engine).handled == Some(i)
  {
    FirstHitFinds(st.table, 0, i, ApplyPre(st.pre, st.ctx, req), st.prefix, engine);
  }

  /** A list of interceptors of one stage holds none of another. */
  lemma CallsOnly(stage: Stage, n: nat, other: Stage)
    requires stage != other
    ensures NoneRan(Calls(stage, n), other)
  {
  }

  /**
   * Under the prefix, all request interceptors of the router run first,
   * whether or not a route then matches; when none does, nothing else runs.
   */
  lemma RequestInterceptorsAlwaysRun(st: RouterState, req: Request, engine: Engine)
    requires st.prefix <= req.path
    ensures |Match(st, req, engine).trace| >= |st.pre|
    ensures Match(st, req, engine).trace[..|st.pre|] == Calls(RouterRequest, |st.pre|)
    ensures (forall j :: 0 <= j < |st.table| ==> Hit(st.table[j], ApplyPre(st.pre, st.ctx, req), st.prefix, engine).None?)
      ==> Match(st, req, engine).trace == Calls(RouterRequest, |st.pre|)
  {
    var a := Match(st, req, engine);
    var requested := Calls(RouterRequest, |st.pre|);
    if a.handled.Some? {
      assert a.trace == requested + ([Handled(a.handled.value)] + Calls(RouterResponse, |st.post|));
    }
    assert a.trace[..|st.pre|] == requested;
    if forall j :: 0 <= j < |st.table| ==> Hit(st.table[j], ApplyPre(st.pre, st.ctx, req), st.prefix, engine).None? {
      NoHitNoReply(st, req, engine);
    }
  }

  /**
   * The response interceptors of a router run only after a handler of it
   * ran; the trace of a router never holds the application's interceptors.
   */
  lemma ResponseInterceptorsOnlyAfterHandler(st: RouterState, req: Request, engine: Engine)
    ensures Match(st, req, engine).handled.None? ==> NoneRan(Match(st, req, engine).trace, RouterResponse)
    ensures Match(st, req, engine).handled.Some? && |st.post| > 0 ==> !NoneRan(Match(st, req, engine).trace, RouterResponse)
    ensures NoneRan(Match(st, req, engine).trace, AppRequest) && NoneRan(Match(st, req, engine).trace, AppResponse)
  {
    var a := Match(st, req, engine);
    var requested := Calls(RouterRequest, |st.pre|);
    CallsOnly(RouterRequest, |st.pre|, RouterResponse);
    CallsOnly(RouterRequest, |st.pre|, AppRequest);
    CallsOnly(RouterRequest, |st.pre|, AppResponse);
    if a.handled.Some? {
      var handled := requested + [Handled(a.handled.value)];
      var responded := Calls(RouterResponse, |st.post|);
      NoneRanConcat(requested, [Handled(a.handled.value)], AppRequest);
      NoneRanConcat(requested, [Handled(a.handled.value)], AppResponse);
      NoneRanConcat(handled, responded, RouterResponse);
      NoneRanConcat(handled, responded, AppRequest);
      NoneRanConcat(handled, responded, AppResponse);
      CallsOnly(RouterResponse, |st.post|, AppRequest);
      CallsOnly(RouterResponse, |st.post|, AppResponse);
      if |st.post| > 0 {
        assert responded[0] == Intercepted(RouterResponse, 0);
      }
    }
  }

  /**
   * A failing cast of the first route that hits is the router's result: the
   * exception propagates, no handler runs and no later route is tried.
   */
  lemma FirstRouteCastFails(st: RouterState, req: Request, engine: Engine, i: nat, e: Error)
    requires st.prefix <= req.path && i < |st.table|
    requires Hit(st.table[i], ApplyPre(st.pre, st.ctx, req), st.prefix, engine).Some?
    requires forall j :: 0 <= j < i ==> Hit(st.table[j], ApplyPre(st.pre, st.ctx, req), st.prefix, engine).None?
    requires CastFrom(Hit(st.table[i], ApplyPre(st.pre, st.ctx, req), st.prefix, engine).value, st.table[i].casts, map[]) == Err(e)
    ensures Match(st, req, engine) == Attempt(Err(e), None, Calls(RouterRequest, |st.pre|))
  {
    FirstHitFinds(st.table, 0, i, ApplyPre(st.pre, st.ctx, req), st.prefix, engine);
  }

  // ---------------------------------------------------------------------
  // The router object
  // ---------------------------------------------------------------------

  /** `_Router` */
  class Router {
    var prefix: string
    var table: seq<RouteEntry>
    var ctx: NestedContext
    var pre: seq<PreInterceptor>
    var post: seq<PostInterceptor>

    /** `_Router(prefix)`: trailing separators dropped, nothing registered, an unlinked context. */
    constructor(prefix: string)
      ensures this.prefix == StripTrailing(prefix)
      ensures table == [] && pre == [] && post == []
      ensures fresh(ctx) && ctx.entries == map[LinkKey := NoneValue]
    {
      this.prefix := StripTrailing(prefix);
      table := [];
      ctx := new NestedContext(None);
      pre := [];
      post := [];
    }

    /** The state matching reads. */
    function State(): RouterState
      reads this, ctx
    {
      RouterState(prefix, table, pre, post, ctx.entries)
    }

    method RegPreinterceptor(f: PreInterceptor)
      modifies this
      ensures pre == old(pre) + [f]
      ensures prefix == old(prefix) && table == old(table) && ctx == old(ctx) && post == old(post)
    {
      pre := pre + [f];
    }

    method RegPostinterceptor(f: PostInterceptor)
      modifies this
      ensures post == old(post) + [f]
      ensures prefix == old(prefix) && table == old(table) && ctx == old(ctx) && pre == old(pre)
    {
      post := post + [f];
    }

    /** `@router.route(rule, *methods)` applied to `handler`: the template is compiled and the route appended. */
    method Route(rule: string, methods: seq<string>, handler: Handler)
      modifies this
      ensures var c := Templates.Compile(rule);
        table == old(table) + [RouteEntry(methods, c.pattern, c.casts, handler)]
      ensures prefix == old(prefix) && ctx == old(ctx) && pre == old(pre) && post == old(post)
    {
      var pattern, casts := Templates.Parse(rule);
      table := table + [RouteEntry(methods, pattern, casts, handler)];
    }

    /** `route_match(request)`: the loops of `route_match`, proved to compute `Match`. */
    method RouteMatch(req: Request, engine: Engine) returns (a: Attempt)
      ensures a == Match(State(), req, engine)
    {
      if !(prefix <= req.path) {
        return Attempt(Ok(None), None, []);
      }
      var r, requested := RunPre(pre, RouterRequest, ctx.entries, req);
      var i := 0;
      while i < |table|
        invariant 0 <= i <= |table|
        invariant FirstHit(table, i, r, prefix, engine) == FirstHit(table, 0, r, prefix, engine)
      {
        var entry := table[i];
        if Accepts(entry.methods, r.verb) {
          var matcher := engine(entry.pattern, RemoveAll(r.path, prefix));
          if matcher.Some? {
            var vars := CastCaptures(matcher.value, entry.casts);
            if vars.Err? {
              return Attempt(Err(vars.error), None, requested);
            }
            var r2 := r.(vars := Some(Wrap(DictValue(vars.value))));
            var response := entry.handler(r2);
            var responded;
            response, responded := RunPost(post, RouterResponse, ctx.entries, r2, response);
            return Attempt(Ok(response), Some(i), requested + [Handled(i)] + responded);
          }
        }
        i := i + 1;
      }
      return Attempt(Ok(None), None, requested);
    }
  }
}
