/** A segment as a tag plus a list of data element strings, with the four
    service delimiters, rendering and naive parsing, and the escaping of
    delimiter bytes inside data with the release character. */
module BasicSegment {
  import opened Strings

  /** The segment terminator, data element separator, component separator and
      release character; each delimiter is one byte. */
  datatype Delimiters = Delimiters(
    segmentTerminator: char,
    dataElementSeparator: char,
    componentSeparator: char,
    releaseCharacter: char)

  /** The UNOA defaults: ' + : ? */
  const Standard := Delimiters('\'', '+', ':', '?')

  predicate Distinct(d: Delimiters)
  {
    && d.segmentTerminator != d.dataElementSeparator
    && d.segmentTerminator != d.componentSeparator
    && d.segmentTerminator != d.releaseCharacter
    && d.dataElementSeparator != d.componentSeparator
    && d.dataElementSeparator != d.releaseCharacter
    && d.componentSeparator != d.releaseCharacter
  }

  function Specials(d: Delimiters): set<char>
  {
    {d.segmentTerminator, d.dataElementSeparator, d.componentSeparator, d.releaseCharacter}
  }

  /** The text of a segment: tag and elements joined by the data element
      separator, followed by the segment terminator. */
  function Render(tag: string, elements: seq<string>, d: Delimiters): string
  {
    Join([tag] + elements, d.dataElementSeparator) + [d.segmentTerminator]
  }

  /** What ParseSegment reads from a segment text: the text without one
      trailing terminator, cut at every data element separator. The first
      piece is the tag, the others are the elements. */
  function Pieces(segmentStr: string, d: Delimiters): seq<string>
  {
    Split(TrimSuffix(segmentStr, d.segmentTerminator), d.dataElementSeparator)
  }

  class Segment {
    var tag: string
    var elements: seq<string>
    const delimiters: Delimiters

    constructor (tag: string, delimiters: Delimiters)
      ensures this.tag == tag && elements == [] && this.delimiters == delimiters
    {
      this.tag := tag;
      this.elements := [];
      this.delimiters := delimiters;
    }

    method AddElement(element: string)
      modifies this
      ensures elements == old(elements) + [element]
      ensures tag == old(tag)
    {
      elements := elements + [element];
    }

    method AddEmptyElement()
      modifies this
      ensures elements == old(elements) + [""]
      ensures tag == old(tag)
    {
      elements := elements + [""];
    }

    function ToString(): string
      reads this
    {
      Render(tag, elements, delimiters)
    }
  }

  /** Reads a segment text into a fresh segment; the tag and elements are the
      pieces of the text, in order. The source's "empty segment" error is
      never produced, since a split has at least one piece. */
  method ParseSegment(segmentStr: string, delimiters: Delimiters) returns (segment: Segment)
    ensures fresh(segment) && segment.delimiters == delimiters
    ensures [segment.tag] + segment.elements == Pieces(segmentStr, delimiters)
  {
    var parts := Split(TrimSuffix(segmentStr, delimiters.segmentTerminator), delimiters.dataElementSeparator);
    segment := new Segment(parts[0], delimiters);
    var i := 1;
    while i < |parts|
      invariant 1 <= i <= |parts|
      invariant segment.tag == parts[0] && segment.elements == parts[1..i]
    {
      segment.elements := segment.elements + [parts[i]];
      i := i + 1;
    }
    assert [parts[0]] + parts[1..] == parts;
  }

  /** Parsing the text of a segment whose tag and elements contain no data
      element separator gives back the tag and the elements. */
  lemma ParseRender(tag: string, elements: seq<string>, d: Delimiters)
    requires d.dataElementSeparator !in tag
    requires forall i :: 0 <= i < |elements| ==> d.dataElementSeparator !in elements[i]
    ensures Pieces(Render(tag, elements, d), d) == [tag] + elements
  {
    var parts := [tag] + elements;
    assert forall i :: 0 <= i < |parts| ==> d.dataElementSeparator !in parts[i] by {
      forall i | 0 <= i < |parts| ensures d.dataElementSeparator !in parts[i] {
        if i > 0 { assert parts[i] == elements[i - 1]; }
      }
    }
    SplitJoin(parts, d.dataElementSeparator);
  }

  /** Rendering what was parsed from a terminated segment text reproduces the
      text exactly. */
  lemma RenderParse(segmentStr: string, d: Delimiters)
    requires HasSuffix(segmentStr, [d.segmentTerminator])
    ensures var p := Pieces(segmentStr, d); Render(p[0], p[1..], d) == segmentStr
  {
    var p := Pieces(segmentStr, d);
    JoinSplit(TrimSuffix(segmentStr, d.segmentTerminator), d.dataElementSeparator);
    assert [p[0]] + p[1..] == p;
  }

  /** The number of elements ParseSegment finds is the number of data element
      separators in the text. */
  lemma ElementCount(segmentStr: string, d: Delimiters)
    ensures |Pieces(segmentStr, d)| - 1 == CountChar(TrimSuffix(segmentStr, d.segmentTerminator), d.dataElementSeparator)
  {
    SplitCount(TrimSuffix(segmentStr, d.segmentTerminator), d.dataElementSeparator);
  }

  /** Consecutive separators denote empty elements: the name and address
      segment NAD+BY+++ACME CORP' has four elements, the second and third empty. */
  lemma EmptyElementsKept()
    ensures Pieces("NAD+BY+++ACME CORP'", Standard) == ["NAD", "BY", "", "", "ACME CORP"]
  {
    var elements := ["BY", "", "", "ACME CORP"];
    calc {
      Render("NAD", elements, Standard);
      Join(["NAD", "BY", "", "", "ACME CORP"], '+') + "'";
      "NAD" + "+" + Join(["BY", "", "", "ACME CORP"], '+') + "'";
      "NAD" + "+" + "BY" + "+" + Join(["", "", "ACME CORP"], '+') + "'";
      "NAD" + "+" + "BY" + "+" + "" + "+" + Join(["", "ACME CORP"], '+') + "'";
      "NAD" + "+" + "BY" + "+" + "" + "+" + "" + "+" + Join(["ACME CORP"], '+') + "'";
      "NAD+BY+++ACME CORP'";
    }
    ParseRender("NAD", elements, Standard);
  }

  /** ParseSegment does not honour the release character: an escaped data
      element separator still splits the element. */
  lemma ReleaseCharacterIgnored()
    ensures Pieces("FTX+A?+B'", Standard) == ["FTX", "A?", "B"]
  {
    var parts := ["FTX", "A?", "B"];
    assert Join(parts[2..], '+') == "B";
    assert Join(parts[1..], '+') == "A?+B";
    assert Render("FTX", parts[1..], Standard) == "FTX+A?+B'";
    ParseRender("FTX", parts[1..], Standard);
  }

  // Escaping

  /** Each byte of `s` that is in `escaped` preceded by the release byte. */
  function Released(s: string, escaped: set<char>, release: char): string
  {
    if |s| == 0 then ""
    else (if s[0] in escaped then [release, s[0]] else [s[0]]) + Released(s[1..], escaped, release)
  }

  /** Each replacement pass of EscapeSpecialCharacters, in order. */
  function EscapeSpecialCharacters(data: string, d: Delimiters): string
  {
    var r := d.releaseCharacter;
    var s1 := ReplaceAll(data, [r], [r, r]);
    var s2 := ReplaceAll(s1, [d.dataElementSeparator], [r, d.dataElementSeparator]);
    var s3 := ReplaceAll(s2, [d.componentSeparator], [r, d.componentSeparator]);
    ReplaceAll(s3, [d.segmentTerminator], [r, d.segmentTerminator])
  }

  /** Each replacement pass of UnescapeSpecialCharacters, in order. */
  function UnescapeSpecialCharacters(data: string, d: Delimiters): string
  {
    var r := d.releaseCharacter;
    var s1 := ReplaceAll(data, [r, d.segmentTerminator], [d.segmentTerminator]);
    var s2 := ReplaceAll(s1, [r, d.componentSeparator], [d.componentSeparator]);
    var s3 := ReplaceAll(s2, [r, d.dataElementSeparator], [d.dataElementSeparator]);
    ReplaceAll(s3, [r, r], [r])
  }

  lemma {:induction false} DoubleRelease(s: string, r: char)
    ensures ReplaceAll(s, [r], [r, r]) == Released(s, {r}, r)
  {
    if |s| > 0 {
      DoubleRelease(s[1..], r);
      assert s[..1] == [s[0]];
    }
  }

  lemma {:induction false} ReleaseOne(s: string, escaped: set<char>, r: char, c: char)
    requires r in escaped && c !in escaped
    ensures ReplaceAll(Released(s, escaped, r), [c], [r, c]) == Released(s, escaped + {c}, r)
  {
    if |s| > 0 {
      var rest := Released(s[1..], escaped, r);
      ReleaseOne(s[1..], escaped, r, c);
      if s[0] in escaped {
        var t := [r, s[0]] + rest;
        assert t[..1] == [r];
        assert t[1..] == [s[0]] + rest;
        assert t[1..][..1] == [s[0]];
        assert t[1..][1..] == rest;
      } else if s[0] == c {
        var t := [s[0]] + rest;
        assert t[..1] == [c];
        assert t[1..] == rest;
      } else {
        var t := [s[0]] + rest;
        assert t[..1] == [s[0]];
        assert t[1..] == rest;
      }
    }
  }

  /** The first byte of released text is never an escaped byte other than
      the release byte itself. */
  lemma ReleasedHead(s: string, escaped: set<char>, r: char, c: char)
    requires |s| > 0 && c in escaped && c != r
    ensures |Released(s, escaped, r)| > 0 && Released(s, escaped, r)[0] != c
  {
  }

  /** An escaped byte other than `c`, followed by text that does not start
      with `c` when that byte is the release byte, keeps its release byte. */
  lemma KeepRelease(x: char, rest: string, r: char, c: char)
    requires x != c && (x == r && |rest| > 0 ==> rest[0] != c)
    ensures ReplaceAll([r, x] + rest, [r, c], [c]) == [r, x] + ReplaceAll(rest, [r, c], [c])
  {
    var u := [x] + rest;
    var t := ReplaceAll(rest, [r, c], [c]);
    calc {
      ReplaceAll([r, x] + rest, [r, c], [c]);
      { ConsPair(r, x, rest); }
      ReplaceAll([r] + u, [r, c], [c]);
      { ReplaceAllSkipPair(r, u, r, c, [c]); }
      [r] + ReplaceAll(u, [r, c], [c]);
      { ReplaceAllSkipPair(x, rest, r, c, [c]); }
      [r] + ([x] + t);
      { ConsPair(r, x, t); }
      [r, x] + t;
    }
  }

  /** One released byte followed by text already unreleased. */
  lemma UnreleaseStep(x: char, rest: string, rest': string, escaped: set<char>, r: char, c: char)
    requires r in escaped && c in escaped && c != r
    requires ReplaceAll(rest, [r, c], [c]) == rest'
    requires x == r && |rest| > 0 ==> rest[0] != c
    ensures ReplaceAll((if x in escaped then [r, x] else [x]) + rest, [r, c], [c]) ==
      (if x in escaped - {c} then [r, x] else [x]) + rest'
  {
    if x == c {
      ReplaceAllMatch([r, c], rest, [c]);
    } else if x in escaped {
      KeepRelease(x, rest, r, c);
    } else {
      ReplaceAllSkipPair(x, rest, r, c, [c]);
    }
  }

  lemma {:induction false} UnreleaseOne(s: string, escaped: set<char>, r: char, c: char)
    requires r in escaped && c in escaped && c != r
    ensures ReplaceAll(Released(s, escaped, r), [r, c], [c]) == Released(s, escaped - {c}, r)
  {
    if |s| > 0 {
      UnreleaseOne(s[1..], escaped, r, c);
      if |s| > 1 {
        ReleasedHead(s[1..], escaped, r, c);
      }
      UnreleaseStep(s[0], Released(s[1..], escaped, r), Released(s[1..], escaped - {c}, r), escaped, r, c);
    }
  }

  lemma {:induction false} UndoubleRelease(s: string, r: char)
    ensures ReplaceAll(Released(s, {r}, r), [r, r], [r]) == s
  {
    if |s| > 0 {
      var rest := Released(s[1..], {r}, r);
      UndoubleRelease(s[1..], r);
      if s[0] == r {
        var t := [r, r] + rest;
        assert t[..2] == [r, r];
        assert t[2..] == rest;
      } else {
        var t := [s[0]] + rest;
        if |t| >= 2 { assert t[..2] == [s[0], t[1]]; }
        assert t[1..] == rest;
      }
      assert [s[0]] + s[1..] == s;
    }
  }

  /** Escaping puts the release character before every delimiter byte and
      every release byte of the data, and before nothing else. */
  lemma EscapeReleasesSpecials(data: string, d: Delimiters)
    requires Distinct(d)
    ensures EscapeSpecialCharacters(data, d) == Released(data, Specials(d), d.releaseCharacter)
  {
    var r := d.releaseCharacter;
    DoubleRelease(data, r);
    ReleaseOne(data, {r}, r, d.dataElementSeparator);
    ReleaseOne(data, {r} + {d.dataElementSeparator}, r, d.componentSeparator);
    ReleaseOne(data, {r} + {d.dataElementSeparator} + {d.componentSeparator}, r, d.segmentTerminator);
    assert {r} + {d.dataElementSeparator} + {d.componentSeparator} + {d.segmentTerminator} == Specials(d);
  }

  /** Unescaping undoes escaping whenever the four delimiters are distinct. */
  lemma UnescapeEscape(data: string, d: Delimiters)
    requires Distinct(d)
    ensures UnescapeSpecialCharacters(EscapeSpecialCharacters(data, d), d) == data
  {
    var r := d.releaseCharacter;
    EscapeReleasesSpecials(data, d);
    var all := Specials(d);
    UnreleaseOne(data, all, r, d.segmentTerminator);
    var e1 := all - {d.segmentTerminator};
    UnreleaseOne(data, e1, r, d.componentSeparator);
    var e2 := e1 - {d.componentSeparator};
    UnreleaseOne(data, e2, r, d.dataElementSeparator);
    var e3 := e2 - {d.dataElementSeparator};
    assert e3 == {r};
    UndoubleRelease(data, r);
  }
}
