/** The quoting rule of CSV (RFC 4180, section 2, rule 7) as the copy loader
    applies it: inside a field enclosed in double quotes, every double quote
    is written twice. */
module CsvQuoting {
  import opened Records

  const Quote: char := '"'

  /** How often `c` occurs in `s`. */
  function CountChar(s: string, c: char): nat {
    if s == [] then 0 else (if s[0] == c then 1 else 0) + CountChar(s[1..], c)
  }

  lemma {:induction false} CountCharAppend(a: string, b: string, c: char)
    ensures CountChar(a + b, c) == CountChar(a, c) + CountChar(b, c)
  {
    if a == [] {
      assert a + b == b;
    } else {
      assert (a + b)[1..] == a[1..] + b;
      CountCharAppend(a[1..], b, c);
    }
  }

  /** `s.replace("\"", "\"\"")`: each double quote doubled, every other character kept. */
  function Escape(s: string): (r: string)
    ensures |r| == |s| + CountChar(s, Quote)
  {
    if s == [] then []
    else (if s[0] == Quote then [Quote, Quote] else [s[0]]) + Escape(s[1..])
  }

  /** The reading of a quoted field's content, its opening quote already
      consumed: up to the first quote that is not doubled, each doubled quote
      read as one; the text after the closing quote comes back with it. `None`
      when the field is never closed. */
  function ReadField(t: string): (r: Option<(string, string)>)
    ensures r.Some? ==> |r.value.1| < |t|
  {
    if t == [] then None
    else if t[0] == Quote then
      if |t| >= 2 && t[1] == Quote then
        match ReadField(t[2..])
        case None => None
        case Some((field, rest)) => Some(([Quote] + field, rest))
      else Some(([], t[1..]))
    else
      match ReadField(t[1..])
      case None => None
      case Some((field, rest)) => Some(([t[0]] + field, rest))
  }

  /** An escaped text followed by the closing quote reads back as the text: the
      escaping is lossless, and a quote inside the JSON never ends the field. */
  lemma {:induction false} ReadFieldOfEscape(s: string, rest: string)
    requires rest == [] || rest[0] != Quote
    ensures ReadField(Escape(s) + [Quote] + rest) == Some((s, rest))
  {
    if s == [] {
      var t := Escape(s) + [Quote] + rest;
      assert t == [Quote] + rest;
      assert t[1..] == rest;
    } else {
      var c := s[0];
      var tail := Escape(s[1..]) + [Quote] + rest;
      ReadFieldOfEscape(s[1..], rest);
      assert [c] + s[1..] == s;
      EscapeOfReadFieldCons(c, tail, s[1..], rest);
      ReadFieldCons(c, tail, s[1..], rest);
    }
  }

  /** Reading one more character, or one more doubled quote, in front. */
  lemma ReadFieldCons(c: char, tail: string, field: string, rest: string)
    requires ReadField(tail) == Some((field, rest))
    ensures ReadField((if c == Quote then [Quote, Quote] else [c]) + tail) == Some(([c] + field, rest))
  {
    var t := (if c == Quote then [Quote, Quote] else [c]) + tail;
    if c == Quote {
      assert t[2..] == tail;
    } else {
      assert t[1..] == tail;
    }
  }

  lemma EscapeCons(c: char, s: string)
    ensures Escape([c] + s) == (if c == Quote then [Quote, Quote] else [c]) + Escape(s)
  {
    assert ([c] + s)[1..] == s;
  }

  lemma EscapeOfReadFieldCons(c: char, t: string, field: string, rest: string)
    requires t == Escape(field) + [Quote] + rest
    ensures (if c == Quote then [Quote, Quote] else [c]) + t == Escape([c] + field) + [Quote] + rest
  {
    EscapeCons(c, field);
  }

  /** Conversely, whatever reads as a field is the escaping of that field followed
      by the closing quote: reading and escaping are inverse bijections. */
  lemma {:induction false} EscapeOfReadField(t: string)
    requires ReadField(t).Some?
    ensures var (field, rest) := ReadField(t).value;
      && t == Escape(field) + [Quote] + rest
      && (rest == [] || rest[0] != Quote)
  {
    if t[0] == Quote {
      if |t| >= 2 && t[1] == Quote {
        var tail := t[2..];
        EscapeOfReadField(tail);
        var (field, rest) := ReadField(tail).value;
        EscapeOfReadFieldCons(Quote, tail, field, rest);
        assert t == [Quote, Quote] + tail;
      } else {
        assert t == [Quote] + t[1..];
      }
    } else {
      var tail := t[1..];
      EscapeOfReadField(tail);
      var (field, rest) := ReadField(tail).value;
      EscapeOfReadFieldCons(t[0], tail, field, rest);
      assert t == [t[0]] + tail;
    }
  }

  /** Escaping changes nothing but the double quotes. */
  lemma {:induction false} EscapeKeepsOtherChars(s: string, c: char)
    requires c != Quote
    ensures CountChar(Escape(s), c) == CountChar(s, c)
  {
    if s != [] {
      var head := if s[0] == Quote then [Quote, Quote] else [s[0]];
      CountCharAppend(head, Escape(s[1..]), c);
      EscapeKeepsOtherChars(s[1..], c);
    }
  }

  /** A text without double quotes is written unchanged. */
  lemma {:induction false} EscapeWithoutQuotes(s: string)
    requires CountChar(s, Quote) == 0
    ensures Escape(s) == s
  {
    if s != [] {
      EscapeWithoutQuotes(s[1..]);
    }
  }
}
