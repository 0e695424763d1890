/** The client's address helpers: the paths of the bridge's API
    (`MakeApi`), the full URL of a request (`MakeUrl`), and the reading of
    one tag from a bridge's description document (`ReadXmlValue`), which
    discovery uses for the model name and the base URL. */
module Addresses {
  import opened Common
  import Text

  // ---------------------------------------------------------------------
  // API paths and URLs

  /** `MakeApi`: the parts joined with slashes, the empty path for no
      parts. */
  function MakeApi(parts: seq<string>): (r: string)
    ensures parts == [] ==> r == ""
  {
    Text.Join("/", parts)
  }

  /** `MakeUrl`: the API path under the bridge's address and the user
      name. */
  function MakeUrl(host: string, username: string, api: string): string
  {
    "http://" + host + "/api/" + username + "/" + api
  }

  /** `s` cut at every slash: the inverse of joining with slashes. */
  function Split(s: string): (r: seq<string>)
    ensures |r| >= 1
    decreases |s|
  {
    if s == [] then [""]
    else
      var rest := Split(s[1..]);
      if s[0] == '/' then [""] + rest else [[s[0]] + rest[0]] + rest[1..]
  }

  /** A part is a path segment: it holds no slash. */
  predicate Segment(p: string)
  {
    '/' !in p
  }

  /** Splitting a segment followed by a slash and more text gives the
      segment, then the splitting of the rest; a segment alone splits to
      itself. */
  lemma {:induction false} SplitSegment(a: string, t: string)
    requires Segment(a)
    ensures Split(a + "/" + t) == [a] + Split(t)
    ensures Split(a) == [a]
    decreases |a|
  {
    if a == [] {
      assert a + "/" + t == ['/'] + t;
      assert (['/'] + t)[1..] == t;
    } else {
      assert (a + "/" + t)[1..] == a[1..] + "/" + t;
      assert (a + "/" + t)[0] == a[0];
      SplitSegment(a[1..], t);
      assert [a[0]] + a[1..] == a;
    }
  }

  /** An API path made of segments splits back into those segments: the
      path names exactly the resource its parts name. */
  lemma {:induction false} SplitMakeApi(parts: seq<string>)
    requires parts != [] && forall i | 0 <= i < |parts| :: Segment(parts[i])
    ensures Split(MakeApi(parts)) == parts
  {
    if |parts| == 1 {
      SplitSegment(parts[0], "");
    } else {
      SplitMakeApi(parts[1..]);
      SplitSegment(parts[0], MakeApi(parts[1..]));
      assert [parts[0]] + parts[1..] == parts;
    }
  }

  /** A request's URL is the bridge's address followed by the path
      `api/<user name>/<parts>`, which splits back into those segments. */
  lemma UrlPath(host: string, username: string, parts: seq<string>)
    requires Segment(username) && parts != [] && forall i | 0 <= i < |parts| :: Segment(parts[i])
    ensures var path := MakeApi(["api", username] + parts);
      MakeUrl(host, username, MakeApi(parts)) == "http://" + host + "/" + path &&
      Split(path) == ["api", username] + parts
  {
    var all := ["api", username] + parts;
    assert all[1..] == [username] + parts && ([username] + parts)[1..] == parts;
    forall i | 0 <= i < |all| ensures Segment(all[i]) {
      if i >= 2 {
        assert all[i] == parts[i - 2];
      }
    }
    SplitMakeApi(all);
    assert MakeApi(all[1..]) == username + "/" + MakeApi(parts);
    assert MakeApi(all) == "api" + "/" + MakeApi(all[1..]);
  }

  // ---------------------------------------------------------------------
  // Reading a tag

  function StartTag(tag: string): string { "<" + tag + ">" }
  function EndTag(tag: string): string { "</" + tag + ">" }

  /** `ReadXmlValue`: the text after the first `<tag>` up to the first
      `</tag>` after it, both found ignoring case; `None` (`null`) when
      there is no start tag, no end tag after it, or nothing between. */
  function ReadXmlValue(xml: string, tag: string): Option<string>
  {
    var startTag, endTag := StartTag(tag), EndTag(tag);
    var index := Text.IndexOf(xml, startTag, 0);
    if index >= 0 then
      var from := index + |startTag|;
      var endIndex := Text.IndexOf(xml, endTag, from);
      if endIndex > from then Some(xml[from..endIndex]) else None
    else None
  }

  /** `i` is the first position at or after `from` where `pattern` occurs,
      ignoring case. */
  predicate FirstTag(xml: string, pattern: string, from: int, i: int)
  {
    0 <= from <= i && Text.MatchAt(xml, pattern, i) &&
    forall k | from <= k < i :: !Text.MatchAt(xml, pattern, k)
  }

  /** The first `<tag>` is at `i`, the first `</tag>` after it at `j`, and
      something lies between. */
  predicate Reads(xml: string, tag: string, i: int, j: int)
  {
    FirstTag(xml, StartTag(tag), 0, i) && FirstTag(xml, EndTag(tag), i + |StartTag(tag)|, j) &&
    i + |StartTag(tag)| < j
  }

  /** The first occurrence is the one `IndexOf` finds. */
  lemma FirstIsIndexOf(xml: string, pattern: string, from: nat, i: int)
    requires from <= |xml| && FirstTag(xml, pattern, from, i)
    ensures Text.IndexOf(xml, pattern, from) == i
  {
  }

  /** A value is read exactly when the document has a first start tag
      followed, after some text, by an end tag; the value is that text. */
  lemma ReadXmlValueFinds(xml: string, tag: string)
    ensures ReadXmlValue(xml, tag).Some? ==>
      exists i, j :: Reads(xml, tag, i, j) && ReadXmlValue(xml, tag).value == xml[i + |StartTag(tag)|..j]
    ensures ReadXmlValue(xml, tag).None? ==> forall i, j :: !Reads(xml, tag, i, j)
  {
    var startTag, endTag := StartTag(tag), EndTag(tag);
    var index := Text.IndexOf(xml, startTag, 0);
    if index >= 0 {
      var from := index + |startTag|;
      var endIndex := Text.IndexOf(xml, endTag, from);
      if endIndex > from {
        assert Reads(xml, tag, index, endIndex);
      }
    }
    forall i, j | Reads(xml, tag, i, j) ensures ReadXmlValue(xml, tag).Some? {
      FirstIsIndexOf(xml, startTag, 0, i);
      FirstIsIndexOf(xml, endTag, i + |startTag|, j);
    }
  }

  /** The value an element holds is read back from it, provided the value
      is not empty and no end tag starts inside it. */
  lemma ReadXmlValueOfElement(tag: string, v: string)
    requires v != []
    requires forall k | 0 <= k < |v| :: !Text.MatchAt(v + EndTag(tag), EndTag(tag), k)
    ensures ReadXmlValue(StartTag(tag) + v + EndTag(tag), tag) == Some(v)
  {
    var st, et := StartTag(tag), EndTag(tag);
    var xml := st + v + et;
    var from := |st|;
    assert xml[0..|st|] == st;
    FirstIsIndexOf(xml, st, 0, 0);
    ElementEnd(tag, v);
    FirstIsIndexOf(xml, et, from, from + |v|);
    assert xml[from..from + |v|] == v;
  }

  /** In an element whose value holds no end tag, the first end tag after
      the start tag is the element's own. */
  lemma ElementEnd(tag: string, v: string)
    requires forall k | 0 <= k < |v| :: !Text.MatchAt(v + EndTag(tag), EndTag(tag), k)
    ensures FirstTag(StartTag(tag) + v + EndTag(tag), EndTag(tag), |StartTag(tag)|, |StartTag(tag)| + |v|)
  {
    var st, et := StartTag(tag), EndTag(tag);
    var xml := st + v + et;
    var from := |st|;
    assert xml[from..] == v + et;
    assert xml[from + |v|..from + |v| + |et|] == et;
    forall k | from <= k < from + |v| ensures !Text.MatchAt(xml, et, k) {
      assert !Text.MatchAt(v + et, et, k - from);
      assert xml[k..k + |et|] == xml[from..][k - from..k - from + |et|];
    }
  }
}
