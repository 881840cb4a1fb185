# A verified model of the core of a small Python web framework

The framework is a thin layer over WSGI/webob. An application (`MyWeb`)
holds first-level routers (`_Router`), each owning a path prefix such as
`/python`. A router holds a table of routes, written as simplified
templates like `/student/{name:str}/xxx/{id:int}`. The template compiler
(`regex2simple.parse`) turns each template into a regular expression with
named groups and records which Python cast (`str`, `int`, `float`) every
captured value goes through.

Handling a request happens in this order:
1. The global request interceptors run.
2. Each router is asked in turn.
3. A router whose prefix the path starts with runs its own request
   interceptors.
4. The router picks its first route that accepts the request method and
   matches the path with the prefix removed.
5. That route casts its captures into `request.vars`, calls its handler
   and runs the router's response interceptors.
6. The first router that gives back a response has it passed through the
   global response interceptors.
7. When no router answers, the result is 404.

Both routers and the application keep parameters in attribute-style
dictionaries (`Context`, `NestedContext`; module `dict2obj`). A router's
context falls back on the application's context once the router is
registered.

The model has six modules:

- `Wrappers` (wrappers.dfy): `Option` and `Result`.
- `Errors` (errors.dfy): the Python exceptions the core raises, plus the
  404.
- `Templates` (templates.dfy) models web/regex2simple.py.
  - The token regex `/({[^{}:]+:?[^{}:]*})` is written out over characters
    (`MatchAt`), and `regex.search` is `Search`.
  - The template cut at its tokens is `Scan`, with `Render` (the pattern),
    `Record` (the cast map) and `Source` (the text back).
  - The pointer loop of `parse` is the method `Parse`, proved to compute
    `Compile`.
  - The grammar is proved exact. The search is proved leftmost. The pieces
    are proved to read back to the template, and canonical pieces to be
    scanned back from their text.
- `Contexts` (contexts.dfy) models web/dict2obj.py.
  - `Dict2Obj` is a read-only value, `VarBag`.
  - `Context` and `NestedContext` are classes whose entries the methods
    update.
  - The link of a nested context is an entry under `global_context`, as in
    the source, where every attribute assignment becomes an entry.
- `Routing` (routing.dfy) models `_Router` of web/main.py.
  - The router is a class.
  - `route_match` is the method `RouteMatch`, proved to compute the
    function `Match`.
  - Each of its loops (interceptors, casts) is a method proved against a
    function.
- `App` (app.dfy) models `MyWeb` of web/main.py.
  - The application is a class.
  - `__call__` is the method `Call`, proved to compute the function
    `Serve`.

Handlers, interceptors and the regular-expression engine are code the
model cannot see, so they are function values. The engine is the
parameter `Engine`, which stands for `re.compile(pattern).match(subject)`
and returns the named groups in group order. A request is the value
`Request(verb, path, vars)`. A reply is `Option<Response>`, where `None`
is Python's `None`.

Serving a request also yields a trace of what ran, in order: the `k`-th
interceptor of one of the four interceptor lists (`Intercepted(stage, k)`)
or the handler of route `i` (`Handled(i)`). Router events carry no router
index: `k` counts within the interceptor list of the router that ran it,
and `i` is the route's position in that router's table. Which router an
event came from shows only through its position in the trace, since the
routers are tried one after the other and each contributes one contiguous
stretch. The trace is what the "runs only when" properties of the
interceptors are stated about.

Where the docstring of `parse` (web/regex2simple.py:41-43) disagrees with
its code, the model follows the code. That docstring gives `id` the cast
`str`, but `TYPECAST['int']` is `int`, so `DocumentedExample` proves the
cast is `Int`.

## Model

| member | source | states |
|---|---|---|
| `Templates.TypeTable` | web/regex2simple.py:11-36 | Only `int` maps to the int cast and only `float` to the float cast. The sub-patterns are the five of the table. An empty or unknown type behaves as `word` (`\w+`, `str`). |
| `Templates.MatchAt` | web/regex2simple.py:28 | A token matched at `p` ends inside the text. |
| `Templates.MatchAtSound` | web/regex2simple.py:28 | What the token regex matches at `p` is a well-formed token (a non-empty name without `{}:`, at most one `:`) whose text is written at `p`. |
| `Templates.MatchAtComplete` | web/regex2simple.py:28 | Every well-formed token written at `p` is exactly the token the regex matches there, so greedy matching and backtracking cannot pick another. |
| `Templates.Search` | web/regex2simple.py:48 | `regex.search(src, start)` finds a token at or after `start` that fits in the text. |
| `Templates.SearchFound` | web/regex2simple.py:48 | The position found really holds a match of the token found. |
| `Templates.SearchLeftmost` | web/regex2simple.py:48 | No match starts between `start` and the one found. When nothing is found, no position matches at all. |
| `Templates.SearchFinds` | web/regex2simple.py:48 | The first matching position at or after `start` is the one the search returns. |
| `Templates.SearchNone` | web/regex2simple.py:48 | With no matching position, the search finds nothing. |
| `Templates.Scan` | web/regex2simple.py:47-57 | The loop ends (a last literal) exactly when the search from the pointer finds no token, and otherwise stops at the token the search finds. |
| `Templates.TranslateToken` | web/regex2simple.py:31-37 | `tran_from` gives the token's name, the int cast exactly for type `int` and the float cast exactly for `float`, and a group written as `/(?P<` ... `)`. |
| `Templates.Render` | web/regex2simple.py:50-56 | The pattern of a template without tokens is its text. |
| `Templates.Record` | web/regex2simple.py:53 | Filling the cast map keeps every name it already held, and with no token leaves it as it was. |
| `Templates.Compile` | web/regex2simple.py:40-58 | A template in which the search finds no token compiles to itself with an empty cast map. |
| `Templates.Parse` | web/regex2simple.py:40-58 | The pointer loop returns the pattern and cast map of `Compile(src)`. Literal text is copied, each token becomes `/(?P<name>sub)`, and its name maps to its cast. |
| `Templates.ScanSource` | web/regex2simple.py:47-57 | The loop loses no text: literals and tokens, read back in order, are the template from the pointer on. |
| `Templates.ScanPlain` | web/regex2simple.py:50 | No literal piece copied into the pattern contains a token. |
| `Templates.NoTokenUnchanged` | web/regex2simple.py:40-58 | A template compiles to itself exactly when it holds no token, and to an empty cast map exactly then. |
| `Templates.TokenRewritten` | web/regex2simple.py:37 | At the first token, the `{` of the template becomes the `(` of a group in the pattern. |
| `Templates.TokenRecorded` | web/regex2simple.py:53 | The first token's name is a key of the cast map. |
| `Templates.RecordKeys` | web/regex2simple.py:53 | The cast map's keys are exactly the names the tokens carry. |
| `Templates.RecordUntouched` | web/regex2simple.py:53 | A name no later token carries keeps the cast it already had. |
| `Templates.RecordLastWins` | web/regex2simple.py:53 | A name carried by several tokens gets the cast of the last of them. |
| `Templates.ScanSourceInverse` | web/regex2simple.py:40-58 | Round trip. Literals without `{` and well-formed tokens, written out as a template, are cut back into exactly those pieces. |
| `Templates.DocumentedExample` | web/regex2simple.py:41-43 | `/student/{name:str}/xxx/{id:int}` compiles to `/student/(?P<name>[^/]+)/xxx/(?P<id>[+-]?\d+)`, with `name` cast by str and `id` by int. |
| `Templates.NearMissNoSlash` | web/regex2simple.py:28 | A brace without a leading `/` is copied, not compiled. |
| `Templates.NearMissNoName` | web/regex2simple.py:28 | `/{:int}`, which has no name, is copied, not compiled. |
| `Templates.NearMissTwoColons` | web/regex2simple.py:28 | A token with two `:` is copied, not compiled. |
| `Contexts.AttrAfterSet` | web/dict2obj.py:35-42 | Writing an entry changes what that one name reads and nothing else. A missing name is an AttributeError. |
| `Contexts.Wrap` | web/dict2obj.py:10-15 | A dict, or a Context, is wrapped with its entries; any other value gives an empty view. |
| `Contexts.BagGet` | web/dict2obj.py:20-24 | Reading a name succeeds exactly for a key of the wrapped dict and gives its value; otherwise it is an AttributeError. |
| `Contexts.WrapLookup` | web/dict2obj.py:10-24 | A wrapped dict answers exactly its keys with their values. Any other name, and every name of a wrapped non-dict, is an AttributeError. |
| `Contexts.BagSet` | web/dict2obj.py:27-28 | Every assignment to a `Dict2Obj` raises NotImplementedError. |
| `Contexts.Context.constructor` | web/dict2obj.py:31 | A new context is empty. |
| `Contexts.Context.GetAttr` | web/dict2obj.py:35-39 | Reading a name succeeds exactly for an entry and gives its value. Otherwise it is an AttributeError. |
| `Contexts.Context.Set` | web/dict2obj.py:41-42 | The assignment writes the entry. That name then reads the new value and every other name reads as before. |
| `Contexts.Subscript` | web/dict2obj.py:62 | `v[item]` succeeds exactly when `v` is a Context or a dict holding the key, and gives that entry. A mapping without the key gives KeyError; any value that is not a mapping gives TypeError. |
| `Contexts.NestedContext.constructor` | web/dict2obj.py:52-54 | A new nested context holds only the link entry: the context it was given, or None. |
| `Contexts.NestedContext.Relate` | web/dict2obj.py:56-57 | Relating stores the link under `global_context` and leaves the other entries alone. |
| `Contexts.NestedContext.Set` | web/dict2obj.py:41-42 | The inherited assignment writes the entry. |
| `Contexts.NestedContext.GetAttr` | web/dict2obj.py:59-62 | An own entry always wins. |
| `Contexts.NestedLookup` | web/dict2obj.py:45-62 | Linked to a context, a nested context reads as its own entries laid over the linked ones. A name found in neither is a KeyError. |
| `Contexts.UnlinkedLookup` | web/dict2obj.py:52-62 | Linked to None, it answers only its own entries. Any other name is a TypeError. |
| `Contexts.LinkGone` | web/dict2obj.py:59-62 | With the link entry removed, every name it does not hold is a RecursionError. |
| `Routing.StripTrailing` | web/main.py:19 | `rstrip('/\\')` returns the longest prefix not ending in `/` or `\`. Everything it drops is `/` or `\`. |
| `Routing.RemoveAll` | web/main.py:66 | `replace(pat, '')` never lengthens the text, and leaves it unchanged when the pattern is empty or longer than the text. |
| `Routing.RemoveAbsent` | web/main.py:66 | `replace(prefix, '')` leaves a path in which the prefix does not occur unchanged. |
| `Routing.RemovePrefix` | web/main.py:64-66 | When the prefix does not occur again after the start, removing it strips exactly the leading prefix (`/python/devops` becomes `/devops`). |
| `Routing.RemoveOccurrenceShortens` | web/main.py:66 | `replace(pat, '')` shortens any text in which a non-empty pattern occurs. |
| `Routing.RemoveMoreThanPrefix` | web/main.py:64-66 | For every path that starts with the prefix and has it again further along, `replace(prefix, '')` removes more than the leading prefix, so the subject handed to the pattern is shorter than the path after the prefix. |
| `Routing.RemoveLaterOccurrence` | web/main.py:66 | `replace` also removes later occurrences: `/py/x/py` with prefix `/py` becomes `/x`. |
| `Routing.RemoveEmpty` | web/main.py:66 | The empty prefix removes nothing. |
| `Routing.UpperChar` | web/main.py:63 | A lower-case ASCII letter becomes its capital (32 code points lower); every other character is kept. |
| `Routing.Upper` | web/main.py:63 | `upper()` keeps the length and upper-cases every character. |
| `Routing.Accepts` | web/main.py:63 | A route with no methods accepts every request; a route with methods accepts only a request whose upper-cased method it lists. |
| `Routing.SameUpperAcceptedAlike` | web/main.py:63 | Two methods that differ only in the case of ASCII letters are accepted by the same routes. |
| `Routing.ListedVerbAccepted` | web/main.py:63 | A request whose method, upper-cased, is a listed name without lower-case letters is accepted. |
| `Routing.LowerGetAccepted` | web/main.py:63 | `get` and `GET` both reach a route registered with `GET`. |
| `Routing.LowerCaseNeverAccepted` | web/main.py:63 | A route registered only with method names that contain a lower-case letter accepts no request. |
| `Routing.ParseInt` | web/main.py:72 | `int(text)` fails only with ValueError, and succeeds only on a non-empty run of ASCII digits, bare or after one `+` or `-`. |
| `Routing.ParseIntDigits` | web/main.py:72 | `int(text)` accepts every non-empty run of ASCII digits and gives its decimal value. |
| `Routing.ParseIntSigned` | web/main.py:72 | `int(text)` accepts such a run after one `+` or `-`, and the `-` negates the value. |
| `Routing.ParseIntRejects` | web/main.py:72 | `int('abc')`, `int('4.2')`, `int('')` and `int('-')` raise ValueError. |
| `Routing.ParseShow` | web/main.py:72 | `int(str(n)) == n` for every integer `n`. |
| `Routing.CastCapture` | web/main.py:72 | `type[k](v)` fails exactly when `k` has no cast (KeyError) or an int capture is not an integer (ValueError). A str capture is kept as text, an int capture becomes the integer `int(v)`, a float capture keeps its text. |
| `Routing.CastIntShow` | web/main.py:72 | An int capture holding the numeral of `n` is cast to `n`. |
| `Routing.CastFrom` | web/main.py:70-72 | The capture loop raises only KeyError or ValueError. |
| `Routing.CastFromOk` | web/main.py:70-72 | The captures cast exactly when each one casts on its own. |
| `Routing.CastFromValues` | web/main.py:70-72 | On success, `new_dict` has exactly the captured names, each bound to its cast value. |
| `Routing.CastFromKeeps` | web/main.py:70-72 | A name no capture carries keeps its value. |
| `Routing.CastCaptures` | web/main.py:70-72 | The loop that fills `new_dict` computes `CastFrom`, stopping at the first failing cast. |
| `Routing.PreRegisteredLast` | web/main.py:25-28 | A request interceptor registered last runs last, on what the earlier ones returned. |
| `Routing.PostRegisteredLast` | web/main.py:30-33 | A response interceptor registered last runs last, on what the earlier ones returned. |
| `Routing.ApplyPre` | web/main.py:55-56 | No interceptor leaves the request as it is; one interceptor is applied once. |
| `Routing.ApplyPost` | web/main.py:78-79 | No interceptor leaves the reply as it is; one interceptor is applied once. |
| `Routing.Calls` | web/main.py:55-56 | A loop over `n` interceptors calls each one once, the `k`-th as the `k`-th event. |
| `Routing.RunPre` | web/main.py:55-56 | The request-interceptor loop threads the request through every interceptor in order, and calls each once. |
| `Routing.RunPost` | web/main.py:78-79 | The response-interceptor loop threads the response through every interceptor in order, and calls each once. |
| `Routing.FirstHit` | web/main.py:59-68 | The route found is in the table. |
| `Routing.FirstHitSound` | web/main.py:59-68 | The route found accepts the method and matches, and no earlier route does. With none found, no route does. |
| `Routing.FirstHitFinds` | web/main.py:59-68 | A route that hits with no hit before it is the one found. |
| `Routing.Match` | web/main.py:47-81 | Outside the prefix nothing runs and the reply is None. A router raises only KeyError or ValueError. When a handler runs, its route is in the table and the reply is not an exception. Without a handler, exactly the request interceptors ran; with one, the request interceptors, that handler and the response interceptors ran, in this order. |
| `Routing.HandlerOnlyOnHit` | web/main.py:47-81 | A handler runs only when the path starts with the prefix. It is the handler of the first route that accepts the intercepted request's method and whose pattern matches the path with the prefix removed. |
| `Routing.NoHitNoReply` | web/main.py:50-52 | A path outside the prefix, or one no route hits, gets None and no handler runs. |
| `Routing.FirstRouteWins` | web/main.py:59-81 | For the first route that hits, with casts that succeed, the reply is the response interceptors applied to its handler's reply. The request passed on carries the casts as `vars`. |
| `Routing.FirstRouteCastFails` | web/main.py:59-72 | When a cast of the first route that hits raises, the router's result is that exception: no handler and no response interceptor runs, and no later route is tried; only the request interceptors ran. |
| `Routing.RequestInterceptorsAlwaysRun` | web/main.py:51-59 | Under the prefix every request interceptor of the router runs first, whether or not a route matches; when none matches, nothing else runs. |
| `Routing.ResponseInterceptorsOnlyAfterHandler` | web/main.py:75-79 | Without a handler, no response interceptor of the router runs; with one, they do. A router never runs the application's interceptors. |
| `Routing.Router.constructor` | web/main.py:18-23 | The prefix loses trailing `/` and `\`. The table and interceptor lists are empty. The context is fresh and linked to None. |
| `Routing.Router.RegPreinterceptor` | web/main.py:25-28 | The interceptor is appended and nothing else changes. |
| `Routing.Router.RegPostinterceptor` | web/main.py:30-33 | The interceptor is appended and nothing else changes. |
| `Routing.Router.Route` | web/main.py:35-45 | The route appended holds the methods, the compiled pattern and casts of the template, and the handler. |
| `Routing.Router.RouteMatch` | web/main.py:47-81 | The loops of `route_match` compute `Match` of the router's state. |
| `App.FirstAnswer` | web/main.py:159-167 | The router found is the first whose reply is not None. With none found, every router replies None. |
| `App.Dispatch` | web/main.py:159-169 | Asking the routers raises only the 404, KeyError or ValueError. |
| `App.Serve` | web/main.py:150-169 | `__call__` raises only the 404, KeyError or ValueError. |
| `App.DispatchByFirstAnswer` | web/main.py:150-169 | The first router that replies decides: its exception propagates, and its response goes through the global response interceptors. With no reply, the result is 404. |
| `App.NotFoundIff` | web/main.py:169 | 404 exactly when every router replies None to the request after the global request interceptors. |
| `App.GlobalPostOnlyOnResponse` | web/main.py:162-167 | A served reply is the first replying router's response after the global response interceptors. |
| `App.GlobalRequestFirst` | web/main.py:154-156 | Every global request interceptor runs, in order, before anything else. |
| `App.NotFoundNoGlobalResponse` | web/main.py:162-169 | When no router answers, no global response interceptor has run. |
| `App.GlobalResponseLast` | web/main.py:162-167 | On a response, the last things that ran are all the global response interceptors, in order. |
| `App.ServeTrace` | web/main.py:150-169 | `__call__` ends in 404 without running a global response interceptor, and a response ends with all of them. |
| `App.StatesOf` | web/main.py:159 | The routers' states, in registration order. |
| `App.MyWeb.constructor` | web/main.py:114-119 | No routers or interceptors, and an empty global context. |
| `App.MyWeb.RegPreinterceptor` | web/main.py:121-125 | The interceptor is appended and nothing else changes. |
| `App.MyWeb.RegPostinterceptor` | web/main.py:127-131 | The interceptor is appended and nothing else changes. |
| `App.MyWeb.RegisterRouter` | web/main.py:133-138 | The router is appended. Its own context then maps `route` to the router and `global_context` to the global context. |
| `App.MyWeb.RegExtend` | web/main.py:140-148 | The extension becomes the global entry under its name. |
| `App.MyWeb.Call` | web/main.py:150-169 | The loops of `__call__` compute `Serve` of the application's state: the same result and the same trace. |
| `App.RegisteredContext` | web/main.py:136-138 | A registered router finds itself under `route`. Every other name reads from its own entries over the global ones. |

## Left out

- WSGI and webob: `@dec.wsgify` turning a WSGI environ into a request and a reply into a WSGI response, and rendering `HTTPNotFound` as a 404 page. The model returns `Err(NotFound)` where the source raises `HTTPNotFound`.
- The regular-expression engine is the parameter `Engine`, so the model proves nothing about how `re` matches a compiled pattern. Errors of `re.compile` on templates whose literal text is not valid regex syntax are not modelled. Neither are groups that did not take part in a match (value None).
- `float()`: a float capture keeps its text (`FloatValue`), because floating point is not modelled. So a float capture never fails.
- `Routing.ParseInt`: accepts only an optional sign followed by ASCII digits. `int()` also accepts surrounding whitespace, `_` between digits and non-ASCII decimal digits (which `\d` matches); the model reports ValueError for these.
- `Routing.Upper`: upper-cases ASCII letters only. Python's `str.upper()` also maps non-ASCII letters, some of them to several characters.
- `Routing.Router.Route`: a template whose tokens make `re.compile` fail is appended as a route, where the source raises at registration and appends nothing. Two tokens with the same name (`/{a}/{a}`) redefine a group, and a name that is not a Python identifier (`/{user-id}`, `/{1}`) is not a valid group name. So `Templates.RecordLastWins` describes a cast map that no registered route has.
- Global response interceptors get the request after the global request interceptors, without `vars`. In the source, the router sets `request.vars` (web/main.py:73) on the same object the application passes to its response interceptors (web/main.py:165), so they see it whenever the interceptors hand back the object they were given.
- Interceptors see their context as a snapshot of its own entries and cannot change it or look through a nested context's link. Handlers and interceptors are total functions: their exceptions are not modelled.
- The request is a value: `request.vars = ...` sets a field of the value passed on. The identity of the request object, and request interceptors that return something other than a request, are not modelled.
- Replies: `None` is the only falsy reply. Responses that are falsy in other ways are not modelled, such as an empty string returned by a handler.
- `MyWeb` keeps its routers, context and interceptors in class attributes shared by all instances. The model holds them in one application object.
- `Dict2Obj` keeps a reference to the dict it wraps. `Wrap` takes the entries at wrapping time, so later changes to that dict are not seen.
- Attribute names that are `dict` methods or Python's own attributes (`keys`, `get`, `__class__`, ...) resolve to those and never reach `__getattr__`. This is not modelled.
- The decorators' return values (`return fn`, `return handler`, `return extend`) hand back their argument unchanged and are not modelled.
- `jsonify` (web/main.py:9-12): JSON serialisation is not modelled.
- The demonstration block of web/regex2simple.py:61-71 is not modelled. examples_demo.py is not part of this model.
