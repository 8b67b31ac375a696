/** ch2/staticServer.js: normalise the URL, pick a file and a content type by a
    fixed `switch`, and serve that file with `serveStaticFile`. The file read
    (`fs.readFile`) is a parameter, `readFile`, from the full path to its outcome;
    `__dirname` is the parameter `dirname`. */
module StaticServer {
  import opened Http
  import opened UrlNormalize

  /** The outcome of `fs.readFile`: an error, or the file's bytes. */
  datatype ReadResult = Failed | Read(data: seq<byte>)

  /** A file to serve under `__dirname` and the Content-Type to send it with. */
  datatype Route = Route(file: string, contentType: string)

  /** The route `switch`: three known paths, and the not-found page for every
      other one. Exactly one branch applies to each path. */
  function StaticRoute(path: string): (r: Route)
    ensures r.file == "/public/home.html" <==> path == ""
    ensures r.file == "/public/about.html" <==> path == "/about"
    ensures r.file == "/public/nodeLogo.svg" <==> path == "/nodelogo.svg"
    ensures r.file == "/public/notfound.html" <==> path != "" && path != "/about" && path != "/nodelogo.svg"
    ensures r.contentType == "image/svg+xml" <==> path == "/nodelogo.svg"
    ensures r.contentType == "text/html" <==> path != "/nodelogo.svg"
  {
    match path
    case "" => Route("/public/home.html", "text/html")
    case "/about" => Route("/public/about.html", "text/html")
    case "/nodelogo.svg" => Route("/public/nodeLogo.svg", "image/svg+xml")
    case _ => Route("/public/notfound.html", "text/html")
  }

  /** `if(!responseCode) responseCode = 200;`: an omitted code and the falsy
      code 0 both become 200; any other code is kept. */
  function EffectiveCode(responseCode: Option<int>): (c: int)
    ensures c != 0
    ensures responseCode == None || responseCode == Some(0) ==> c == 200
    ensures responseCode.Some? && responseCode.value != 0 ==> c == responseCode.value
  {
    if responseCode == None || responseCode == Some(0) then 200 else responseCode.value
  }

  /** What the read callback of `serveStaticFile` sends for a read outcome.
      A failed read gives a fixed 500 reply whatever was asked for; a
      successful one gives the requested code and type and the file's bytes. */
  function StaticFileReply(responseCode: Option<int>, contentType: string, outcome: ReadResult): (r: Reply)
    ensures r.body.Bytes? <==> outcome.Read?
    ensures outcome.Failed? ==> r == Reply(500, "text/plain", Text("500 - Internal Error"))
    ensures outcome.Read? ==> r.status == EffectiveCode(responseCode) && r.contentType == contentType
    ensures outcome.Read? ==> r.body.data == outcome.data
  {
    match outcome
    case Failed => Reply(500, "text/plain", Text("500 - Internal Error"))
    case Read(data) => Reply(EffectiveCode(responseCode), contentType, Bytes(data))
  }

  /** `serveStaticFile(res, path, contentType, responseCode)`, with the read
      callback run as soon as `readFile` answers. It reads `dirname + path`. */
  method ServeStaticFile(res: Response, dirname: string, path: string, contentType: string,
                         responseCode: Option<int>, readFile: string -> ReadResult)
    requires res.Valid() && res.Unsent()
    modifies res
    ensures res.Valid() && res.Sent(StaticFileReply(responseCode, contentType, readFile(dirname + path)))
  {
    var code := EffectiveCode(responseCode);
    var outcome := readFile(dirname + path);
    if outcome.Failed? {
      res.WriteHead(500, "text/plain");
      res.End(Text("500 - Internal Error"));
    } else {
      res.WriteHead(code, contentType);
      res.End(Bytes(outcome.data));
    }
  }

  /** The reply the server gives to a request for `url`. Every page, the
      not-found page included, is served with status 200; the only other status
      is 500, exactly when reading the routed file fails. */
  function StaticReply(dirname: string, url: string, readFile: string -> ReadResult): (r: Reply)
    ensures r.status == 200 || r.status == 500
    ensures r.status == 500 <==> readFile(dirname + StaticRoute(Normalize(url)).file).Failed?
    ensures readFile(dirname + StaticRoute(Normalize(url)).file).Failed? ==>
              r == Reply(500, "text/plain", Text("500 - Internal Error"))
    ensures r.status == 200 ==> r.contentType == StaticRoute(Normalize(url)).contentType
    ensures r.status == 200 ==> r.body == Bytes(readFile(dirname + StaticRoute(Normalize(url)).file).data)
  {
    var route := StaticRoute(Normalize(url));
    StaticFileReply(None, route.contentType, readFile(dirname + route.file))
  }

  /** The request handler passed to `http.createServer`. */
  method HandleRequest(res: Response, dirname: string, url: string, readFile: string -> ReadResult)
    requires res.Valid() && res.Unsent()
    modifies res
    ensures res.Valid() && res.Sent(StaticReply(dirname, url, readFile))
  {
    var path := Normalize(url);
    match path
    case "" =>
      ServeStaticFile(res, dirname, "/public/home.html", "text/html", None, readFile);
    case "/about" =>
      ServeStaticFile(res, dirname, "/public/about.html", "text/html", None, readFile);
    case "/nodelogo.svg" =>
      ServeStaticFile(res, dirname, "/public/nodeLogo.svg", "image/svg+xml", None, readFile);
    case _ =>
      ServeStaticFile(res, dirname, "/public/notfound.html", "text/html", None, readFile);
  }

  /** A failed read answers the same whatever code and type were requested. */
  lemma ReadErrorIgnoresRequest(code1: Option<int>, type1: string, code2: Option<int>, type2: string)
    ensures StaticFileReply(code1, type1, Failed) == StaticFileReply(code2, type2, Failed)
    ensures StaticFileReply(code1, type1, Failed).status == 500
  {
  }

  /** An unknown path is answered with the not-found page and status 200,
      never 404. */
  lemma NotFoundPageIs200(dirname: string, url: string, readFile: string -> ReadResult)
    requires Normalize(url) != "" && Normalize(url) != "/about" && Normalize(url) != "/nodelogo.svg"
    requires readFile(dirname + "/public/notfound.html").Read?
    ensures StaticReply(dirname, url, readFile)
         == Reply(200, "text/html", Bytes(readFile(dirname + "/public/notfound.html").data))
  {
  }

  /** "/About/", "/about?x=1" and "/about/?x=1" are all served the about page. */
  lemma AboutVariants(dirname: string, readFile: string -> ReadResult)
    ensures StaticRoute(Normalize("/About/")) == Route("/public/about.html", "text/html")
    ensures StaticReply(dirname, "/about?x=1", readFile) == StaticReply(dirname, "/About/", readFile)
    ensures StaticReply(dirname, "/about/?x=1", readFile) == StaticReply(dirname, "/About/", readFile)
  {
    NormalizeTrailingSlashAndCase();
    NormalizeSlashBeforeQuery();
    assert Normalize("/about?x=1") == "/about" by {
      StripAtFirstQuery("/about?x=1", 6);
      assert "/about?x=1"[..6] == "/about";
      ToLowerFixed("/about");
    }
  }

  /** The route key is lower case, but the file it serves keeps its capital:
      "/nodeLogo.svg" is served "/public/nodeLogo.svg" as SVG. */
  lemma LogoRoute()
    ensures StaticRoute(Normalize("/nodeLogo.svg")) == Route("/public/nodeLogo.svg", "image/svg+xml")
  {
    var url := "/nodeLogo.svg";
    // no character of the URL is a '?', checked in three slices
    forall j | 0 <= j < |url|
      ensures url[j] != '?'
    {
      if j < 5 {
      } else if j < 9 {
      } else {
      }
    }
    StripWithoutQuery(url);
    ToLowerIs(url, "/nodelogo.svg");
  }
}
