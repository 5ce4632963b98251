/** How a thread is written as JSON text, and how long that text is. */
module ThreadText {
  import opened Options

  /** A character of a text; lone surrogates are allowed, as in the program. */
  type CodePoint = c: int | 0 <= c < 0x11_0000
  type Text = seq<CodePoint>

  /** One comment, or one review when it has a state. */
  datatype Entry = Entry(author: Text, body: Text, createdAt: Text, state: Option<Text>)
  datatype Thread = Thread(comments: seq<Entry>, reviews: seq<Entry>)

  function HexDigit(d: nat): char
    requires d < 16
  {
    "0123456789abcdef"[d]
  }

  function Unit(c: nat): string
    requires c < 0x1_0000
  {
    "\\u" + [HexDigit(c / 0x1000), HexDigit(c / 0x100 % 16), HexDigit(c / 16 % 16), HexDigit(c % 16)]
  }

  /** Section 7 of RFC 8259, writing ASCII only. */
  function Escape(c: CodePoint): string {
    if c == 0x22 then "\\\""
    else if c == 0x5C then "\\\\"
    else if c == 0x0A then "\\n"
    else if c == 0x0D then "\\r"
    else if c == 0x09 then "\\t"
    else if c == 0x08 then "\\b"
    else if c == 0x0C then "\\f"
    else if 0x20 <= c < 0x7F then [c as char]
    else if c < 0x1_0000 then Unit(c)
    else Unit(0xD800 + (c - 0x1_0000) / 0x400) + Unit(0xDC00 + (c - 0x1_0000) % 0x400)
  }

  function Escaped(s: Text): string {
    if s == [] then "" else Escaped(s[..|s| - 1]) + Escape(s[|s| - 1])
  }

  function Quoted(s: Text): string {
    "\"" + Escaped(s) + "\""
  }

  function RenderEntry(e: Entry): string {
    "{\"author\": " + Quoted(e.author) + ", \"body\": " + Quoted(e.body) + ", \"created_at\": " + Quoted(e.createdAt)
    + (if e.state.Some? then ", \"state\": " + Quoted(e.state.value) else "") + "}"
  }

  function RenderList(entries: seq<Entry>): string {
    if |entries| == 0 then ""
    else if |entries| == 1 then RenderEntry(entries[0])
    else RenderList(entries[..|entries| - 1]) + ", " + RenderEntry(entries[|entries| - 1])
  }

  function Render(t: Thread): string {
    "{\"comments\": [" + RenderList(t.comments) + "], \"reviews\": [" + RenderList(t.reviews) + "]}"
  }

  function Size(t: Thread): nat {
    |Render(t)|
  }

  /** Nothing in `s` needs escaping. */
  predicate Plain(s: Text) {
    forall c | c in s :: 0x20 <= c < 0x7F && c != 0x22 && c != 0x5C
  }

  lemma EscapeGrows(c: CodePoint)
    ensures 1 <= |Escape(c)| <= 12
    ensures 0x20 <= c < 0x7F && c != 0x22 && c != 0x5C ==> |Escape(c)| == 1
  {
  }

  lemma {:induction false} EscapedConcat(s: Text, t: Text)
    ensures Escaped(s + t) == Escaped(s) + Escaped(t)
  {
    hide Escape;
    if t == [] {
      assert s + t == s;
    } else {
      var n := |t| - 1;
      assert (s + t)[..|s + t| - 1] == s + t[..n];
      EscapedConcat(s, t[..n]);
    }
  }

  lemma {:induction false} EscapedGrows(s: Text)
    ensures |s| <= |Escaped(s)|
    ensures Plain(s) ==> |Escaped(s)| == |s|
  {
    hide Escape;
    if s != [] {
      var n := |s| - 1;
      EscapedGrows(s[..n]);
      EscapeGrows(s[n]);
      assert s[n] in s && forall c | c in s[..n] :: c in s;
    }
  }

  /** What writing another body does to an entry's length. */
  lemma EntryLength(e: Entry, body: Text)
    ensures |RenderEntry(e.(body := body))| - |RenderEntry(e)| == |Escaped(body)| - |Escaped(e.body)|
    ensures |RenderEntry(e)| > |Escaped(e.author)|
  {
    hide Escaped;
  }

  lemma {:induction false} ListLength(entries: seq<Entry>, k: nat, e: Entry)
    requires k < |entries|
    ensures |RenderList(entries[k := e])| - |RenderList(entries)| == |RenderEntry(e)| - |RenderEntry(entries[k])|
  {
    hide RenderEntry;
    var n := |entries| - 1;
    if n > 0 {
      if k < n {
        ListLength(entries[..n], k, e);
        assert entries[k := e][..n] == entries[..n][k := e];
      } else {
        assert entries[k := e][..n] == entries[..n];
      }
    }
  }

  /** The text of a thread with no entries. */
  lemma EmptyThreadSize(t: Thread)
    requires t.comments == [] && t.reviews == []
    ensures Size(t) == 31
  {
  }

  lemma UnitText(c: nat)
    requires c < 0x1_0000
    ensures |Unit(c)| == 6 && Unit(c)[0] == '\\' && Unit(c)[1] == 'u'
    ensures forall i | 2 <= i < 6 :: '0' <= Unit(c)[i] <= '9' || 'a' <= Unit(c)[i] <= 'f'
  {
    HexDigitText(c / 0x1000);
    HexDigitText(c / 0x100 % 16);
    HexDigitText(c / 16 % 16);
    HexDigitText(c % 16);
  }

  lemma HexDigitText(d: nat)
    requires d < 16
    ensures HexDigit(d) == if d < 10 then '0' + d as char else 'a' + (d - 10) as char
  {
  }

  /** How many characters stand for one: two for the quote, the backslash and five
      controls, one for the rest of printable ASCII, six for what is left of the
      first plane, twelve beyond it; and all of them are printable ASCII. */
  lemma EscapeLengths(c: CodePoint)
    ensures |Escape(c)| ==
      if c in {0x22, 0x5C, 0x0A, 0x0D, 0x09, 0x08, 0x0C} then 2
      else if 0x20 <= c < 0x7F then 1
      else if c < 0x1_0000 then 6
      else 12
    ensures forall i | 0 <= i < |Escape(c)| :: ' ' <= Escape(c)[i] <= '~'
    ensures |Escape(c)| == 1 ==> Escape(c)[0] == c as char
    ensures |Escape(c)| > 1 ==> Escape(c)[0] == '\\'
  {
    hide Unit;
    if c >= 0x1_0000 {
      UnitText(0xD800 + (c - 0x1_0000) / 0x400);
      UnitText(0xDC00 + (c - 0x1_0000) % 0x400);
    } else {
      UnitText(c);
    }
  }

  /** The length of an entry's text, and of a list's and a thread's. */
  lemma RenderedLengths(e: Entry, entries: seq<Entry>, t: Thread)
    ensures |RenderEntry(e)| == 44 + |Escaped(e.author)| + |Escaped(e.body)| + |Escaped(e.createdAt)|
                              + (if e.state.Some? then 13 + |Escaped(e.state.value)| else 0)
    ensures |RenderList(entries + [e])| == |RenderList(entries)| + |RenderEntry(e)| + (if entries == [] then 0 else 2)
    ensures Size(t) == 31 + |RenderList(t.comments)| + |RenderList(t.reviews)|
  {
    hide Escaped;
    assert (entries + [e])[..|entries|] == entries;
  }
}
