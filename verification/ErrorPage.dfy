/** The page for requests that never reach an application. */
module ErrorPages {
  import opened ByteStrings
  import opened Streams
  import opened HeaderBlock

  const ERROR_PAGE: seq<Sent> := [
    Text(Ascii("HTTP/1.0 500 INTERNAL SERVER ERROR\r\n")),
    Text(Ascii("Content-type: text/html\r\n")),
    Text(Ascii("\r\n")),
    Text(Ascii("<html><body><h1>Internal error.</h1></body></html>\n"))]

  /**
   * The error page is a status line and then a response of one header and a body. A client that expects a header
   * block, like that of an application, cannot read it: the status line is no header.
   */
  lemma ErrorPage()
    ensures var page, status := Flatten(ERROR_PAGE), Ascii("HTTP/1.0 500 INTERNAL SERVER ERROR\r\n");
            && status <= page
            && Read(page[|status|..]) == Some(Message([Header(Ascii("Content-type"), Ascii("text/html"))],
                                                      Ascii("<html><body><h1>Internal error.</h1></body></html>\n")))
            && Read(page).None?
  {
    var a, b, c, d := Ascii("HTTP/1.0 500 INTERNAL SERVER ERROR\r\n"), Ascii("Content-type: text/html\r\n"),
      Ascii("\r\n"), Ascii("<html><body><h1>Internal error.</h1></body></html>\n");
    PageBytes(a, b, c, d);
    PageHead(d);
    PageStatus(b + c + d);
    hide Read, Ascii, Flatten;
    assert (a + (b + c + d))[|a|..] == b + c + d;
  }

  lemma PageBytes(a: Bytes, b: Bytes, c: Bytes, d: Bytes)
    ensures Flatten([Text(a), Text(b), Text(c), Text(d)]) == a + (b + c + d)
  {
    assert Flatten([]) == [];
    FlattenSnoc([], Text(a));
    FlattenSnoc([Text(a)], Text(b));
    FlattenSnoc([Text(a), Text(b)], Text(c));
    FlattenSnoc([Text(a), Text(b), Text(c)], Text(d));
    hide Flatten;
    assert [] + [Text(a)] == [Text(a)] && [Text(a)] + [Text(b)] == [Text(a), Text(b)];
    assert [Text(a), Text(b)] + [Text(c)] == [Text(a), Text(b), Text(c)];
    assert [Text(a), Text(b), Text(c)] + [Text(d)] == [Text(a), Text(b), Text(c), Text(d)];
  }

  lemma PlainHeader()
    ensures var h := Header(Ascii("Content-type"), Ascii("text/html"));
            NewlineFree(h) && COLON !in h.name
  {
  }

  lemma PageHead(body: Bytes)
    ensures Read(Ascii("Content-type: text/html\r\n") + Ascii("\r\n") + body)
         == Some(Message([Header(Ascii("Content-type"), Ascii("text/html"))], body))
  {
    var h := Header(Ascii("Content-type"), Ascii("text/html"));
    assert Line(h) == Ascii("Content-type: text/html\r\n") && CRLF == Ascii("\r\n");
    assert Lines([h][1..]) == [];
    assert Block([h]) == Line(h) + CRLF;
    hide Read, Line, Ascii, Block;
    PlainHeader();
    ReadBlock([h], body);
  }

  /** A text whose first line has no colon is no header block. */
  lemma NoHeader(line: Bytes, rest: Bytes)
    requires line != [] && NEWLINE !in line && COLON !in line
    ensures Read(line + CRLF + rest).None?
  {
    FirstLine(line, rest);
    IndexOfIs(line, COLON, |line|);
    hide IndexOf, ChopCR;
  }

  lemma StatusHasNoNewline()
    ensures NEWLINE !in Ascii("HTTP/1.0 500 INTERNAL SERVER ERROR")
  {
  }

  lemma StatusHasNoColon()
    ensures COLON !in Ascii("HTTP/1.0 500 INTERNAL SERVER ERROR")
  {
  }

  lemma PageStatus(rest: Bytes)
    ensures Read(Ascii("HTTP/1.0 500 INTERNAL SERVER ERROR\r\n") + rest).None?
  {
    var line := Ascii("HTTP/1.0 500 INTERNAL SERVER ERROR");
    assert Ascii("HTTP/1.0 500 INTERNAL SERVER ERROR\r\n") == line + CRLF;
    hide Read, Ascii;
    StatusHasNoNewline();
    StatusHasNoColon();
    NoHeader(line, rest);
  }
}
