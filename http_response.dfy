/** The part of Node's `http.ServerResponse` that the ch2 servers use:
    `writeHead(status, {'Content-Type': ...})` and `end(data)`.
    Only the status, the Content-Type header and the body are recorded. */
module Http {

  datatype Option<T> = None | Some(value: T)

  newtype byte = x: int | 0 <= x < 256

  /** What `end` is given: a string literal, or the Buffer `fs.readFile` produced. */
  datatype Body = Text(text: string) | Bytes(data: seq<byte>)

  /** A finished response as the client sees it. */
  datatype Reply = Reply(status: int, contentType: string, body: Body)

  class Response {
    var statusCode: int
    var contentType: Option<string>
    var headersSent: bool
    var ended: bool
    var body: Body

    /** A response that has ended has sent its headers. */
    ghost predicate Valid()
      reads this
    {
      ended ==> headersSent
    }

    /** Nothing has been sent yet: the state a request handler starts from. */
    predicate Unsent()
      reads this
    {
      !headersSent && !ended
    }

    /** The response has ended, carrying exactly `r`. */
    predicate Sent(r: Reply)
      reads this
    {
      ended && statusCode == r.status && contentType == Some(r.contentType) && body == r.body
    }

    /** A fresh response: status 200 (Node's default), no headers, no body. */
    constructor ()
      ensures Valid() && Unsent()
      ensures statusCode == 200 && contentType == None && body == Text("")
    {
      statusCode := 200;
      contentType := None;
      headersSent := false;
      ended := false;
      body := Text("");
    }

    /** `res.writeHead(code, {'Content-Type': type})`. Node refuses a second
        `writeHead` once the headers are out, so callers must not make one. */
    method WriteHead(code: int, mediaType: string)
      requires Valid() && !headersSent
      modifies this
      ensures Valid() && headersSent && !ended
      ensures statusCode == code && contentType == Some(mediaType)
      ensures body == old(body)
    {
      statusCode := code;
      contentType := Some(mediaType);
      headersSent := true;
    }

    /** `res.end(data)`: the first call finishes the response with `data`
        as its body; on an ended response it changes nothing. */
    method End(data: Body)
      requires Valid()
      modifies this
      ensures Valid() && ended && headersSent
      ensures old(ended) ==> unchanged(this)
      ensures !old(ended) ==> body == data
      ensures statusCode == old(statusCode) && contentType == old(contentType)
    {
      if !ended {
        body := data;
        headersSent := true;
        ended := true;
      }
    }
  }
}
