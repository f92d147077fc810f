/**
  Header sections as text, with any amount of blanks before the values, which section 5.5 of RFC 9110
  and section 5 of RFC 9112 allow. The parser skips exactly one character behind the colon.
 */
module FieldSpacing {
  import opened Text
  import opened HttpParser

  datatype FieldText = FieldText(name: string, value: string)

  /** No delimiter inside the part it delimits; implied by the grammar of the RFC. */
  predicate WellFormedField(f: FieldText) {
    ':' !in f.name && '\n' !in f.name && !("\r" <= f.name) && '\n' !in f.value
  }

  /** The header fields in order, a later duplicate replacing an earlier one. */
  function FieldMap(fs: seq<FieldText>, start: map<string, string>): map<string, string> {
    if fs == [] then start else FieldMap(fs[1..], start[fs[0].name := fs[0].value])
  }

  /** A name is known iff some field has it, and its value is that of the last such field. */
  lemma {:induction false} LastFieldWins(fs: seq<FieldText>, start: map<string, string>, name: string)
    ensures var m := FieldMap(fs, start);
      && (name in m <==> name in start || exists i :: 0 <= i < |fs| && fs[i].name == name)
      && (forall i | 0 <= i < |fs| && fs[i].name == name && (forall j | i < j < |fs| :: fs[j].name != name) ::
            m[name] == fs[i].value)
      && (name in start && (forall j | 0 <= j < |fs| :: fs[j].name != name) ==> m[name] == start[name])
  {
    if fs != [] {
      var rest, start' := fs[1..], start[fs[0].name := fs[0].value];
      LastFieldWins(rest, start', name);
      assert forall i | 0 <= i < |rest| :: rest[i] == fs[i + 1];
      assert forall i | 1 <= i < |fs| :: fs[i] == rest[i - 1];
    }
  }

  datatype Spaced = Spaced(name: string, space: string, value: string)

  predicate Blanks(s: string) { forall i | 0 <= i < |s| :: s[i] == ' ' || s[i] == '\t' }

  predicate WellSpaced(f: Spaced) { WellFormedField(FieldText(f.name, f.value)) && Blanks(f.space) }

  predicate AllWellSpaced(fs: seq<Spaced>) { fs == [] || (WellSpaced(fs[0]) && AllWellSpaced(fs[1..])) }

  function PrintLine(f: Spaced): string { f.name + ":" + f.space + f.value + "\r\n" }

  function PrintLines(fs: seq<Spaced>): string {
    if fs == [] then "" else PrintLine(fs[0]) + PrintLines(fs[1..])
  }

  /** The fields as the RFC means them. */
  function Meant(fs: seq<Spaced>): seq<FieldText> {
    if fs == [] then [] else [FieldText(fs[0].name, fs[0].value)] + Meant(fs[1..])
  }

  /** Something stands behind the colon. */
  predicate HasText(f: Spaced) { f.space + f.value != "" }

  predicate AllHaveText(fs: seq<Spaced>) { fs == [] || (HasText(fs[0]) && AllHaveText(fs[1..])) }

  /** What the parser takes for the value. */
  function Found(f: Spaced): string
    requires HasText(f)
  {
    (f.space + f.value)[1..]
  }

  function FoundMap(fs: seq<Spaced>, start: map<string, string>): map<string, string>
    requires AllHaveText(fs)
  {
    if fs == [] then start else FoundMap(fs[1..], start[fs[0].name := Found(fs[0])])
  }

  function Names(fs: seq<Spaced>): set<string> {
    if fs == [] then {} else {fs[0].name} + Names(fs[1..])
  }

  /** One blank before each value that no later field replaces. */
  predicate LastsExact(fs: seq<Spaced>) {
    fs == [] || ((fs[0].name in Names(fs[1..]) || |fs[0].space| == 1) && LastsExact(fs[1..]))
  }

  lemma LineFound(name: string, behind: string, rest: string)
    requires ':' !in name
    ensures FieldLine(name + [':'] + (behind + "\r"), rest) == if behind != "" then Field(name, behind[1..], rest) else Reversed(rest)
  {
    var line := name + [':'] + (behind + "\r");
    FindAfter(name, ':', behind + "\r");
    assert line[..|name|] == name;
    if behind != "" { assert line[|name| + 2..|line| - 1] == behind[1..]; }
  }

  /** A field line is read right exactly with one character between the colon and the value. */
  lemma LineSpacing(name: string, space: string, value: string, rest: string)
    requires ':' !in name
    ensures FieldLine(name + [':'] + (space + value + "\r"), rest) == Field(name, value, rest) <==> |space| == 1
  {
    LineFound(name, space + value, rest);
    var f := Spaced(name, space, value);
    if HasText(f) { FoundIsValue(f); }
  }

  lemma LineCut(v: Variant, line: string, rest: string)
    requires '\n' !in line && line != "" && line[0] != '\r'
    ensures NextLine(v, line + ['\n'] + rest) == FieldLine(line, rest)
  {
    var str := line + ['\n'] + rest;
    FindAfter(line, '\n', rest);
    assert str[..|line|] == line && Drop(str, |line| + 1) == rest && str[0] == line[0];
  }

  lemma LineNext(v: Variant, f: Spaced, rest: string)
    requires WellSpaced(f)
    ensures NextLine(v, PrintLine(f) + rest) == if HasText(f) then Field(f.name, Found(f), rest) else Reversed(rest)
  {
    var line := f.name + [':'] + (f.space + f.value + "\r");
    assert PrintLine(f) + rest == line + ['\n'] + rest;
    assert line[0] == if f.name == "" then ':' else f.name[0];
    LineCut(v, line, rest);
    LineFound(f.name, f.space + f.value, rest);
  }

  lemma BlankLineNext(v: Variant, tail: string)
    ensures NextLine(v, "\r\n" + tail) == Blank(tail)
  {
    var str := "\r\n" + tail;
    assert str == "\r" + ['\n'] + tail;
    FindAfter("\r", '\n', tail);
    assert Drop(str, 2) == tail;
  }

  lemma FirstLine(fs: seq<Spaced>, tail: string)
    requires fs != []
    ensures PrintLines(fs) + "\r\n" + tail == PrintLine(fs[0]) + (PrintLines(fs[1..]) + "\r\n" + tail)
  {}

  function Section(fs: seq<Spaced>, tail: string): string { PrintLines(fs) + "\r\n" + tail }

  lemma SectionEnds(v: Variant, tail: string, start: map<string, string>)
    ensures ParseHeaders(v, Section([], tail), start) == Headers(HeaderSuccess, tail, start)
  {
    BlankLineNext(v, tail);
    assert Section([], tail) == "\r\n" + tail;
  }

  lemma SectionNext(v: Variant, fs: seq<Spaced>, tail: string, start: map<string, string>)
    requires fs != [] && WellSpaced(fs[0])
    ensures var rest := Section(fs[1..], tail);
      ParseHeaders(v, Section(fs, tail), start) ==
        if HasText(fs[0]) then ParseHeaders(v, rest, start[fs[0].name := Found(fs[0])]) else Headers(HeaderUndefined, rest, start)
  {
    FirstLine(fs, tail);
    LineNext(v, fs[0], Section(fs[1..], tail));
  }

  /** The header section is read with the values found, or is undefined at the first field without a value. */
  lemma {:induction false} LinesRead(v: Variant, fs: seq<Spaced>, tail: string, start: map<string, string>)
    requires AllWellSpaced(fs)
    ensures var h := ParseHeaders(v, Section(fs, tail), start);
      if AllHaveText(fs) then h == Headers(HeaderSuccess, tail, FoundMap(fs, start)) else h.status.HeaderUndefined?
  {
    if fs == [] {
      SectionEnds(v, tail, start);
    } else {
      SectionNext(v, fs, tail, start);
      if HasText(fs[0]) { LinesRead(v, fs[1..], tail, start[fs[0].name := Found(fs[0])]); }
    }
  }

  ghost predicate AgreeOutside(a: map<string, string>, b: map<string, string>, names: set<string>) {
    forall n | n !in names :: (n in a <==> n in b) && (n in a && n in b ==> a[n] == b[n])
  }

  lemma FoundIsValue(f: Spaced)
    requires HasText(f)
    ensures Found(f) == f.value <==> |f.space| == 1
  {
    assert |Found(f)| == |f.space| + |f.value| - 1;
    if |f.space| == 1 { assert (f.space + f.value)[1..] == f.value; }
  }

  lemma AgreeStep(a: map<string, string>, b: map<string, string>, name: string, x: string, y: string, names: set<string>)
    ensures AgreeOutside(a[name := x], b[name := y], names) <==> AgreeOutside(a, b, {name} + names) && (name in names || x == y)
  {
    var a', b' := a[name := x], b[name := y];
    if AgreeOutside(a', b', names) {
      forall n | n !in {name} + names ensures (n in a <==> n in b) && (n in a && n in b ==> a[n] == b[n]) {
        assert n in a <==> n in a';
        assert n in b <==> n in b';
      }
      assert name !in names ==> a'[name] == b'[name];
    }
  }

  /** The map that is read is the one that is meant exactly when every value that lasts has one blank before it. */
  lemma {:induction false} MapsAgree(fs: seq<Spaced>, a: map<string, string>, b: map<string, string>)
    requires AllHaveText(fs)
    ensures FoundMap(fs, a) == FieldMap(Meant(fs), b) <==> LastsExact(fs) && AgreeOutside(a, b, Names(fs))
  {
    if fs == [] {
      if AgreeOutside(a, b, {}) { assert a.Keys == b.Keys; }
    } else {
      var f := fs[0];
      FoundIsValue(f);
      AgreeStep(a, b, f.name, Found(f), f.value, Names(fs[1..]));
      MapsAgree(fs[1..], a[f.name := Found(f)], b[f.name := f.value]);
      assert Meant(fs)[1..] == Meant(fs[1..]);
    }
  }
}
