# ch2 servers: URL normalisation and routing

A Dafny model of the two hand-written Node HTTP servers in `ch2`:

- the URL normaliser both use, `req.url.replace(/\/?(?:\?.*)?$/, '').toLowerCase()`
  (module `UrlNormalize`, file `url_normalize.dfy`);
- the part of Node's response object they use, `writeHead` and `end`
  (module `Http`, file `http_response.dfy`): a `Response` class whose `end`
  does nothing once the response has ended;
- the static file server: the route `switch` from normalised path to file and
  Content-Type, and `serveStaticFile`, whose reply depends only on the outcome
  of the file read (module `StaticServer`, file `static_server.dfy`);
- the hello-world server: a three-way `switch` to a fixed status, type and
  body, followed by an extra `res.end` (module `HelloWorld`, file `hello_world.dfy`).

The regular expression is modelled at its own level: `MatchesAt` says where
the pattern `\/?(?:\?.*)?$` matches, `FirstMatch` is the engine's leftmost
scan, and `StripSuffix` removes that one match (the replace is not global).
This holds for every string, including strings with line terminators, which
`.` does not match. The plain description is then proved: cut at the first
`'?'` together with a `'/'` just before it, when no line terminator follows
that `'?'`; with no `'?'`, drop one trailing `'/'`. The lemmas `ToLowerIs` and
`ToLowerKeepsPunctuation` are helpers for these proofs and model nothing of
their own.

Normalisation is sometimes described as idempotent. The code is not: `"//"`
becomes `"/"`, which becomes `""`. `NormalizeTwice` proves the exact
condition. A second normalisation changes nothing if and only if the first
result does not end in `'/'`. The model follows the code.

The static server serves its not-found page with status 200. Its route
`switch` never passes a response code, so `serveStaticFile` uses its default.
The only other status it sends is 500, when the file read fails.

## Model

| member | source | states |
|---|---|---|
| `UrlNormalize.MatchesAt` | ch2/staticServer.js:19 | holds exactly where the pattern `\/?(?:\?.*)?$` can match; its contract states that a match starts within the string, that the empty match at the end always exists, and that no match starts at a line terminator (that every match runs to the end of the string holds by its definition, through the `$` anchor) |
| `UrlNormalize.FirstMatch` | ch2/staticServer.js:19 | the result is a position where the pattern matches, and no earlier position from the start point matches (the leftmost match) |
| `UrlNormalize.StripSuffix` | ch2/staticServer.js:19 | the result is a prefix of the URL ending where the leftmost match of the pattern begins; the match runs to the end of the URL |
| `UrlNormalize.LowerChar` | ch2/staticServer.js:19 | the result is never an ASCII capital; a capital moves to its lower-case letter, and any other character is unchanged |
| `UrlNormalize.ToLower` | ch2/staticServer.js:19 | same length as the input, and each character is the lowered input character at the same position |
| `UrlNormalize.Normalize` | ch2/staticServer.js:19 | the normalised path is no longer than the URL and holds no ASCII capital |
| `UrlNormalize.ToLowerFixed` | ch2/staticServer.js:19 | lowercasing a string with no ASCII capital returns it unchanged |
| `UrlNormalize.StripAtFirstQuery` | ch2/staticServer.js:18-19 | for a URL with a `'?'` and no line terminator after its first `'?'`, the result is the part before the first `'?'`, less one `'/'` right before it |
| `UrlNormalize.StripWithoutQuery` | ch2/staticServer.js:18-19 | with no `'?'` in the URL, only a single trailing `'/'` is removed, whether or not the URL holds line terminators |
| `UrlNormalize.RemovedPartHasNoLineTerminator` | ch2/staticServer.js:19 | the part of the URL that the replace removes holds no line terminator |
| `UrlNormalize.NormalizeHasNoQuery` | ch2/staticServer.js:18-19 | for a URL without line terminators, the normalised path contains no `'?'` |
| `UrlNormalize.NormalizeTwice` | ch2/staticServer.js:19 | for every URL, line terminators included, normalising a normalised path gives it back if and only if it does not end in `'/'` |
| `UrlNormalize.NormalizeSlashes` | ch2/staticServer.js:19 | `"//"` gives `"/"` and `"/"` gives `""`, so normalising twice can differ from normalising once |
| `UrlNormalize.NormalizeSlashBeforeQuery` | ch2/staticServer.js:18-19 | `"/about/?x=1"` gives `"/about"`: the `'/'` before the query is removed with it |
| `UrlNormalize.NormalizeQueryAndCase` | ch2/staticServer.js:18-19 | `"/About?x=1"` gives `"/about"` |
| `UrlNormalize.NormalizeTrailingSlashAndCase` | ch2/staticServer.js:18-19 | `"/About/"` gives `"/about"` |
| `UrlNormalize.NormalizePlainPath` | ch2/staticServer.js:19 | `"/about"` is left as it is |
| `UrlNormalize.QueryBeforeLineBreakKept` | ch2/staticServer.js:19 | a `'?'` followed later by a line break is not removed, because `.` does not match the line break |
| `Http.Response.constructor` | ch2/staticServer.js:17 | a new response has status 200, no Content-Type, no body, and nothing sent |
| `Http.Response.WriteHead` | ch2/staticServer.js:8 | sets the status and the Content-Type and sends the headers; the body and the ended flag are unchanged |
| `Http.Response.End` | ch2/moreSophisticatedHelloWorld.js:24 | the first call ends the response with the given body; on an ended response it changes nothing; status and type are never changed |
| `StaticServer.StaticRoute` | ch2/staticServer.js:21-38 | `""` gives the home page, `"/about"` the about page (both `text/html`), `"/nodelogo.svg"` the logo as `image/svg+xml`, and every other path the not-found page as `text/html`; each in both directions, so exactly one branch applies |
| `StaticServer.EffectiveCode` | ch2/staticServer.js:5 | the code is never 0; an omitted code or 0 gives 200; any other code is kept |
| `StaticServer.StaticFileReply` | ch2/staticServer.js:6-13 | a failed read gives 500, `text/plain`, `"500 - Internal Error"`; a successful one gives the effective code, exactly the given type and exactly the file's bytes; the body is bytes if and only if the read succeeded |
| `StaticServer.ServeStaticFile` | ch2/staticServer.js:4-15 | the response ends with the reply for the outcome of reading `dirname + path` |
| `StaticServer.StaticReply` | ch2/staticServer.js:17-39 | every reply has status 200 or 500, and 500 exactly when reading the routed file fails, in which case the reply is `text/plain` with body `"500 - Internal Error"`; on 200 the type is the route's and the body is that file's bytes |
| `StaticServer.HandleRequest` | ch2/staticServer.js:17-39 | the response ends with the reply for the routed file of the normalised URL |
| `StaticServer.ReadErrorIgnoresRequest` | ch2/staticServer.js:7-9 | a failed read gives the same 500 reply whatever code and content type were asked for |
| `StaticServer.NotFoundPageIs200` | ch2/staticServer.js:34-36 | when the not-found page can be read, an unknown path is answered with its bytes, `text/html` and status 200, not 404 |
| `StaticServer.AboutVariants` | ch2/staticServer.js:19-29 | `"/About/"`, `"/about?x=1"` and `"/about/?x=1"` are all served the about page |
| `StaticServer.LogoRoute` | ch2/staticServer.js:19-33 | `"/nodeLogo.svg"` is served the file `/public/nodeLogo.svg` as `image/svg+xml` |
| `HelloWorld.HelloReply` | ch2/moreSophisticatedHelloWorld.js:6-22 | the type is always `text/plain`; `""` gives 200 `"Homepage"`, `"/about"` gives 200 `"About"`, and every other path gives 404 `"Not Found"`, each in both directions |
| `HelloWorld.HandleRequest` | ch2/moreSophisticatedHelloWorld.js:3-25 | the response ends with the `switch`'s reply for the normalised URL; the trailing `end` leaves no trace in the body |
| `HelloWorld.HomeVariants` | ch2/moreSophisticatedHelloWorld.js:5-11 | `"/"`, `"/?x=1"` and `""` all reach the home page |
| `HelloWorld.AboutVariants` | ch2/moreSophisticatedHelloWorld.js:5-16 | `"/About/"`, `"/about?x=1"` and `"/about"` all reach the about page |
| `HelloWorld.OtherPathsNotFound` | ch2/moreSophisticatedHelloWorld.js:17-21 | any URL whose normalised path is neither `""` nor `"/about"` is answered 404 `"Not Found"` |

## Left out

- Server plumbing: `http.createServer`, `listen(3000)` and every `console.log` are not modelled; a handler is a method on one request's response.
- `fs.readFile` is the parameter `readFile` from full path to outcome, and `__dirname` is the parameter `dirname`. The read callback runs when the handler calls it; asynchrony and interleaving with other requests are not modelled.
- `UrlNormalize.LowerChar`: lowercases ASCII letters only. JavaScript's `toLowerCase` also lowers other Unicode letters, and a few of them become longer, so the length bound in `UrlNormalize.Normalize` is shown for the ASCII model only.
- `StaticServer.EffectiveCode`: the response code is an optional integer. Other falsy JavaScript values (`null`, `NaN`, `false`, `""`) also become 200 in the source and are not modelled.
- `Http.Response.WriteHead`: a second `writeHead` throws in Node. The model forbids it with a precondition that the handlers always meet.
- `Http.Response.End`: `end` on an ended response is a no-op. Newer Node versions also raise a write-after-end error for it; that is not modelled.
- Only the Content-Type header is recorded; other headers, chunked writes with `res.write`, and the implicit headers of `end` without `writeHead` are not modelled.
- meadowlark/meadowlark.js, meadowlark/Gruntfile.js and meadowlark/config.js are not part of this model: Express routing, rendering, the per-request error domain, the build tasks and the configuration data live in libraries and tooling outside it.
