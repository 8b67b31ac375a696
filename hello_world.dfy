/** ch2/moreSophisticatedHelloWorld.js: normalise the URL, answer from a
    three-way `switch` with a fixed status, Content-Type and body, then call
    `res.end('<h1>Hello world!</h1>')` once more on the already ended response. */
module HelloWorld {
  import opened Http
  import opened UrlNormalize

  /** The trailing `res.end` argument, which never reaches the client. */
  const TrailingBody := Text("<h1>Hello world!</h1>")

  /** The reply the `switch` chooses for a normalised path: the home page for
      "", the about page for "/about", and 404 for every other path. Exactly
      one branch applies to each path. */
  function HelloReply(path: string): (r: Reply)
    ensures r.contentType == "text/plain"
    ensures r.status == 200 <==> path == "" || path == "/about"
    ensures r.status == 404 <==> path != "" && path != "/about"
    ensures r.body == Text("Homepage") <==> path == ""
    ensures r.body == Text("About") <==> path == "/about"
    ensures r.body == Text("Not Found") <==> r.status == 404
  {
    match path
    case "" => Reply(200, "text/plain", Text("Homepage"))
    case "/about" => Reply(200, "text/plain", Text("About"))
    case _ => Reply(404, "text/plain", Text("Not Found"))
  }

  /** The request handler passed to `http.createServer`. Every branch ends the
      response, so the final `end` changes nothing: status, type and body are
      those the `switch` chose. */
  method HandleRequest(res: Response, url: string)
    requires res.Valid() && res.Unsent()
    modifies res
    ensures res.Valid() && res.Sent(HelloReply(Normalize(url)))
    ensures res.body != TrailingBody
  {
    var path := Normalize(url);
    match path {
      case "" =>
        res.WriteHead(200, "text/plain");
        res.End(Text("Homepage"));
      case "/about" =>
        res.WriteHead(200, "text/plain");
        res.End(Text("About"));
      case _ =>
        res.WriteHead(404, "text/plain");
        res.End(Text("Not Found"));
    }
    res.End(TrailingBody);
  }

  /** "/", "/?x=1" and "" all reach the home page. */
  lemma HomeVariants()
    ensures HelloReply(Normalize("/")) == Reply(200, "text/plain", Text("Homepage"))
    ensures HelloReply(Normalize("/?x=1")) == Reply(200, "text/plain", Text("Homepage"))
    ensures HelloReply(Normalize("")) == Reply(200, "text/plain", Text("Homepage"))
  {
    NormalizeSlashes();
    StripAtFirstQuery("/?x=1", 1);
    StripWithoutQuery("");
  }

  /** "/About/" and "/about?x=1" reach the about page like "/about". */
  lemma AboutVariants()
    ensures HelloReply(Normalize("/About/")) == Reply(200, "text/plain", Text("About"))
    ensures HelloReply(Normalize("/about?x=1")) == Reply(200, "text/plain", Text("About"))
    ensures HelloReply(Normalize("/about")) == Reply(200, "text/plain", Text("About"))
  {
    NormalizeTrailingSlashAndCase();
    NormalizePlainPath();
    StripAtFirstQuery("/about?x=1", 6);
    assert "/about?x=1"[..6] == "/about";
  }

  /** Any URL whose normalised path is neither "" nor "/about" is answered 404. */
  lemma OtherPathsNotFound(url: string)
    requires Normalize(url) != "" && Normalize(url) != "/about"
    ensures HelloReply(Normalize(url)) == Reply(404, "text/plain", Text("Not Found"))
  {
  }
}
