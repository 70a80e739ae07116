/**
 * Storing interface definitions: the line-oriented splitting of object
 * definition files into one entry per class, the extraction of service
 * names from service definition files, the keying of config files, and
 * the two bulk buffers that `InterfaceAdmin` fills and then hands to the
 * directory and the resource registry in one call each.
 *
 * File contents are given as strings; the datastores are the
 * `directory` and `registry` fields.
 */
module Interfaces {
  import opened Wrappers
  import Text

  /** `DIR_RESFILES_PATH`. */
  const DirResfilesPath := "/Config"

  /** A file path and what reading the file gives. */
  datatype SourceFile = SourceFile(path: string, content: string)

  /** The two resource dicts made by `_create_object_type` and `_create_service_definition`. */
  datatype Resource =
    | ObjectType(name: string, definition: string, definitionOrder: nat)
    | ServiceDefinition(name: string, definition: string, namespace: string)

  /** The attributes of a directory entry for a config file. */
  datatype ConfigEntry = ConfigEntry(filePath: string, definition: string)

  /** The exceptions that escape: an unbound `classname`, a `name:` line with one token. */
  datatype LoadError = NameError | IndexError

  predicate Unique<T(==)>(s: seq<T>) {
    forall i, j :: 0 <= i < j < |s| ==> s[i] != s[j]
  }

  // ---------------------------------------------------------------------
  // An OrderedDict from class names to text

  type Entries = seq<(string, string)>

  function Keys(d: Entries): seq<string> {
    if d == [] then [] else [d[0].0] + Keys(d[1..])
  }

  /** The concatenation of the values, in order. */
  function Concat(d: Entries): string {
    if d == [] then "" else d[0].1 + Concat(d[1..])
  }

  /**
   * `d[k] = v` on an OrderedDict: an existing key keeps its position and
   * takes the new value; a new key goes at the end.
   */
  function Put(d: Entries, k: string, v: string): Entries
  {
    if d == [] then [(k, v)]
    else if d[0].0 == k then [(k, v)] + d[1..]
    else [d[0]] + Put(d[1..], k, v)
  }

  /** Storing keeps the key order, adding a new key at the end; a new key's entry is appended. */
  lemma {:induction false} PutKeys(d: Entries, k: string, v: string)
    ensures Keys(Put(d, k, v)) == if k in Keys(d) then Keys(d) else Keys(d) + [k]
    ensures k !in Keys(d) ==> Put(d, k, v) == d + [(k, v)]
  {
    if d != [] && d[0].0 != k {
      PutKeys(d[1..], k, v);
      assert d == [d[0]] + d[1..];
    }
  }

  lemma {:induction false} ConcatAppend(d: Entries, k: string, v: string)
    ensures Concat(d + [(k, v)]) == Concat(d) + v
  {
    if d != [] {
      assert (d + [(k, v)])[1..] == d[1..] + [(k, v)];
      ConcatAppend(d[1..], k, v);
    }
  }

  /** Every key of the dict built from `[]` by `Put`s names one entry. */
  lemma {:induction false} KeysAppend(d: Entries, k: string, v: string)
    ensures Keys(d + [(k, v)]) == Keys(d) + [k]
  {
    if d != [] {
      assert (d + [(k, v)])[1..] == d[1..] + [(k, v)];
      KeysAppend(d[1..], k, v);
    }
  }

  /** First-occurrence order: each element kept where it first appears. */
  function Dedup(s: seq<string>): (r: seq<string>)
    ensures forall x :: x in r <==> x in s
    ensures Unique(r)
  {
    if s == [] then []
    else
      var d := Dedup(s[..|s| - 1]);
      if s[|s| - 1] in s[..|s| - 1] then d else d + [s[|s| - 1]]
  }

  lemma {:induction false} DedupUnique(s: seq<string>)
    requires Unique(s)
    ensures Dedup(s) == s
  {
    if s != [] {
      DedupUnique(s[..|s| - 1]);
      assert s == s[..|s| - 1] + [s[|s| - 1]];
    }
  }

  // ---------------------------------------------------------------------
  // _load_object_files, one file

  /** A line that opens a class: its first character is a letter. */
  predicate IsHeader(line: string) {
    |line| > 0 && Text.IsLetter(line[0])
  }

  /** `line.split(':')[0]`. */
  function ClassName(line: string): string {
    Text.Before(line, ':')
  }

  /**
   * The loop's variables: the entries already stored, `class_content`,
   * `first_time`, and `classname` (unbound is `None`; it keeps its value
   * from one file to the next).
   */
  datatype Scan = Scan(objs: Entries, content: string, first: bool, name: Option<string>)

  predicate Named(s: Scan) {
    s.first || s.name.Some?
  }

  function ScanStart(name: Option<string>): Scan {
    Scan([], "", true, name)
  }

  /** One pass of the line loop. */
  function ScanLine(s: Scan, line: string): (r: Scan)
    requires Named(s)
    ensures Named(r)
  {
    if IsHeader(line) then
      Scan(if s.first then s.objs else Put(s.objs, s.name.value, s.content),
           (if s.first then s.content else "") + line + "\n",
           false,
           Some(ClassName(line)))
    else Scan(s.objs, s.content + line + "\n", s.first, s.name)
  }

  function ScanLines(s: Scan, lines: seq<string>): (r: Scan)
    requires Named(s)
    ensures Named(r)
  {
    if lines == [] then s else ScanLine(ScanLines(s, lines[..|lines| - 1]), lines[|lines| - 1])
  }

  /** The class names of the header lines, in order. */
  function Headers(lines: seq<string>): seq<string> {
    if lines == [] then []
    else
      var h := Headers(lines[..|lines| - 1]);
      if IsHeader(lines[|lines| - 1]) then h + [ClassName(lines[|lines| - 1])] else h
  }

  /** Every line, each followed by a newline. */
  function LinesText(lines: seq<string>): string {
    if lines == [] then "" else lines[0] + "\n" + LinesText(lines[1..])
  }

  /**
   * One file of `_load_object_files`: the entries of the OrderedDict
   * after the final store, and the class name that stays bound. Storing
   * under an unbound class name is the NameError.
   */
  function FileObjects(content: string, name: Option<string>): Result<(Entries, string), LoadError> {
    var s := ScanLines(ScanStart(name), Text.Split(content, '\n'));
    if s.name.None? then Failure(NameError)
    else Success((Put(s.objs, s.name.value, s.content), s.name.value))
  }

  /**
   * What the line loop has built after `lines`: with no header yet nothing
   * is stored and the carried name is untouched; after one, the entry
   * still open is named by the last header, and storing it gives one key per
   * distinct header name in order of first appearance.
   */
  lemma {:induction false} ScanKeys(name: Option<string>, lines: seq<string>)
    ensures var s := ScanLines(ScanStart(name), lines);
      && (s.first <==> Headers(lines) == [])
      && (s.first ==> s.objs == [] && s.name == name)
      && (!s.first ==>
            && s.name == Some(Headers(lines)[|Headers(lines)| - 1])
            && Keys(Put(s.objs, s.name.value, s.content)) == Dedup(Headers(lines)))
  {
    if lines != [] {
      var p := lines[..|lines| - 1];
      ScanKeys(name, p);
      ScanKeysStep(ScanLines(ScanStart(name), p), lines[|lines| - 1], Headers(p), name);
    }
  }

  /** One line of `ScanKeys`'s induction. */
  lemma ScanKeysStep(s: Scan, line: string, h: seq<string>, name: Option<string>)
    requires Named(s)
    requires s.first <==> h == []
    requires s.first ==> s.objs == [] && s.name == name
    requires !s.first ==> s.name == Some(h[|h| - 1]) && Keys(Put(s.objs, s.name.value, s.content)) == Dedup(h)
    ensures var r := ScanLine(s, line);
      var h' := if IsHeader(line) then h + [ClassName(line)] else h;
      && (r.first <==> h' == [])
      && (r.first ==> r.objs == [] && r.name == name)
      && (!r.first ==> r.name == Some(h'[|h'| - 1]) && Keys(Put(r.objs, r.name.value, r.content)) == Dedup(h'))
  {
    var r := ScanLine(s, line);
    if IsHeader(line) {
      var n := ClassName(line);
      assert (h + [n])[..|h + [n]| - 1] == h;
      if !s.first {
        var o := Put(s.objs, s.name.value, s.content);
        assert r == Scan(o, line + "\n", false, Some(n));
        PutKeys(o, n, line + "\n");
      } else {
        assert r == Scan([], s.content + line + "\n", false, Some(n));
        assert h + [n] == [n];
        assert Dedup([n]) == [n] by {
          assert [n][..0] == [];
        }
      }
    } else if !s.first {
      assert r == Scan(s.objs, s.content + line + "\n", false, s.name);
      PutKeys(s.objs, s.name.value, s.content);
      PutKeys(s.objs, s.name.value, s.content + line + "\n");
    }
  }

  /**
   * When the header names are distinct, nothing is overwritten: the stored
   * entries are one per header, and the stored text followed by the open
   * entry's text is every line so far, each followed by a newline.
   */
  lemma {:induction false} ScanText(name: Option<string>, lines: seq<string>)
    requires Unique(Headers(lines))
    ensures var s := ScanLines(ScanStart(name), lines);
      && (s.first ==> s.objs == [] && s.content == LinesText(lines))
      && (!s.first ==>
            && Keys(s.objs) + [s.name.value] == Headers(lines)
            && Concat(s.objs) + s.content == LinesText(lines))
  {
    if lines != [] {
      var p := lines[..|lines| - 1];
      var line := lines[|lines| - 1];
      assert lines == p + [line];
      var h := Headers(p);
      assert Unique(h) by {
        assert Headers(lines) == h || Headers(lines) == h + [ClassName(line)];
        assert forall i :: 0 <= i < |h| ==> h[i] == Headers(lines)[i];
      }
      ScanText(name, p);
      ScanKeys(name, p);
      LinesTextAppend(p, line);
      ScanTextStep(ScanLines(ScanStart(name), p), line, h, LinesText(p));
    }
  }

  /** One line of `ScanText`'s induction. */
  lemma ScanTextStep(s: Scan, line: string, h: seq<string>, text: string)
    requires Named(s)
    requires Unique(if IsHeader(line) then h + [ClassName(line)] else h)
    requires s.first ==> s.objs == [] && s.content == text && h == []
    requires !s.first ==> Keys(s.objs) + [s.name.value] == h && Concat(s.objs) + s.content == text
    ensures var r := ScanLine(s, line);
      var h' := if IsHeader(line) then h + [ClassName(line)] else h;
      && (r.first ==> r.objs == [] && r.content == text + line + "\n")
      && (!r.first ==> Keys(r.objs) + [r.name.value] == h' && Concat(r.objs) + r.content == text + line + "\n")
  {
    if !IsHeader(line) {
      ScanTextBody(s, line, h, text);
    } else if !s.first {
      ScanTextFlush(s, line, h, text);
    } else {
      assert ScanLine(s, line) == Scan([], s.content + line + "\n", false, Some(ClassName(line)));
    }
  }

  /** A body line is appended to the open entry. */
  lemma ScanTextBody(s: Scan, line: string, h: seq<string>, text: string)
    requires Named(s) && !IsHeader(line)
    requires s.first ==> s.objs == [] && s.content == text
    requires !s.first ==> Keys(s.objs) + [s.name.value] == h && Concat(s.objs) + s.content == text
    ensures var r := ScanLine(s, line);
      && (r.first ==> r.objs == [] && r.content == text + line + "\n")
      && (!r.first ==> Keys(r.objs) + [r.name.value] == h && Concat(r.objs) + r.content == text + line + "\n")
  {
    assert ScanLine(s, line) == Scan(s.objs, s.content + line + "\n", s.first, s.name);
    assert Concat(s.objs) + (s.content + line + "\n") == (Concat(s.objs) + s.content) + line + "\n";
  }

  /** A header after the first stores the open entry and opens a new one. */
  lemma ScanTextFlush(s: Scan, line: string, h: seq<string>, text: string)
    requires Named(s) && !s.first && IsHeader(line)
    requires Unique(h + [ClassName(line)])
    requires Keys(s.objs) + [s.name.value] == h && Concat(s.objs) + s.content == text
    ensures var r := ScanLine(s, line);
      && !r.first
      && Keys(r.objs) + [r.name.value] == h + [ClassName(line)]
      && Concat(r.objs) + r.content == text + line + "\n"
  {
    var o := s.objs + [(s.name.value, s.content)];
    FlushAppends(s.objs, s.name.value, s.content, ClassName(line));
    assert ScanLine(s, line) == Scan(o, line + "\n", false, Some(ClassName(line)));
    assert Concat(o) + (line + "\n") == (Concat(s.objs) + s.content) + line + "\n";
  }

  /** Storing the open entry under a name not yet used appends it. */
  lemma FlushAppends(objs: Entries, k: string, c: string, n: string)
    requires Unique(Keys(objs) + [k] + [n])
    ensures Put(objs, k, c) == objs + [(k, c)]
    ensures Keys(objs + [(k, c)]) + [n] == Keys(objs) + [k] + [n]
    ensures Concat(objs + [(k, c)]) == Concat(objs) + c
  {
    var h := Keys(objs) + [k];
    assert forall i :: 0 <= i < |h| ==> (h + [n])[i] == h[i];
    FlushNew(objs, k, c);
  }

  lemma FlushNew(objs: Entries, k: string, c: string)
    requires Unique(Keys(objs) + [k])
    ensures Put(objs, k, c) == objs + [(k, c)]
    ensures Keys(objs + [(k, c)]) == Keys(objs) + [k]
    ensures Concat(objs + [(k, c)]) == Concat(objs) + c
  {
    var h := Keys(objs) + [k];
    assert h[|Keys(objs)|] == k;
    forall i | 0 <= i < |Keys(objs)| ensures Keys(objs)[i] != k {
      assert h[i] == Keys(objs)[i];
    }
    PutKeys(objs, k, c);
    ConcatAppend(objs, k, c);
    KeysAppend(objs, k, c);
  }

  lemma {:induction false} LinesTextAppend(p: seq<string>, line: string)
    ensures LinesText(p + [line]) == LinesText(p) + line + "\n"
  {
    if p != [] {
      assert (p + [line])[1..] == p[1..] + [line];
      LinesTextAppend(p[1..], line);
    }
  }

  /** Every line followed by a newline is the file's text plus one newline. */
  lemma {:induction false} LinesTextJoin(parts: seq<string>)
    requires |parts| >= 1
    ensures LinesText(parts) == Text.Join(parts, '\n') + "\n"
  {
    if |parts| > 1 {
      LinesTextJoin(parts[1..]);
    }
  }

  /** The positions of the header lines, in order. */
  function HeaderAt(lines: seq<string>): (r: seq<nat>)
    ensures forall i :: 0 <= i < |r| ==> r[i] < |lines|
    ensures forall i :: 0 < i < |r| ==> r[i - 1] < r[i]
  {
    if lines == [] then []
    else
      var p := HeaderAt(lines[..|lines| - 1]);
      if IsHeader(lines[|lines| - 1]) then p + [|lines| - 1] else p
  }

  /**
   * The positions are exactly the header lines, and the `i`-th header
   * name is read off the `i`-th of them.
   */
  lemma {:induction false} HeaderAtSpec(lines: seq<string>)
    ensures |HeaderAt(lines)| == |Headers(lines)|
    ensures forall i :: 0 <= i < |HeaderAt(lines)| ==>
      IsHeader(lines[HeaderAt(lines)[i]]) && Headers(lines)[i] == ClassName(lines[HeaderAt(lines)[i]])
    ensures forall j :: 0 <= j < |lines| && IsHeader(lines[j]) ==> j in HeaderAt(lines)
  {
    if lines != [] {
      var p := lines[..|lines| - 1];
      HeaderAtSpec(p);
      assert forall j :: 0 <= j < |p| ==> lines[j] == p[j];
    }
  }

  /**
   * The lines of the `i`-th class: from its header up to the next header
   * or the end of the file; lines before the first header belong to the
   * first class.
   */
  function Section(lines: seq<string>, i: nat): seq<string>
    requires i < |HeaderAt(lines)|
  {
    var p := HeaderAt(lines);
    lines[(if i == 0 then 0 else p[i]) .. (if i + 1 < |p| then p[i + 1] else |lines|)]
  }

  lemma HeaderAtAppend(p: seq<string>, line: string)
    ensures HeaderAt(p + [line]) == if IsHeader(line) then HeaderAt(p) + [|p|] else HeaderAt(p)
  {
    assert (p + [line])[..|p|] == p;
  }

  /** A body line extends the last section and leaves the others. */
  lemma SectionAfterBody(p: seq<string>, line: string, i: nat)
    requires !IsHeader(line) && i < |HeaderAt(p)|
    ensures Section(p + [line], i) == if i + 1 < |HeaderAt(p)| then Section(p, i) else Section(p, i) + [line]
  {
    HeaderAtAppend(p, line);
    var h := HeaderAt(p);
    var a := if i == 0 then 0 else h[i];
    var b := if i + 1 < |h| then h[i + 1] else |p|;
    SliceAppend(p, line, a, b);
  }

  lemma SliceAppend(p: seq<string>, line: string, a: nat, b: nat)
    requires a <= b <= |p|
    ensures (p + [line])[a..b] == p[a..b]
    ensures b == |p| ==> (p + [line])[a..b + 1] == p[a..b] + [line]
  {
  }

  /** A header line leaves every section and opens a new one holding just itself. */
  lemma SectionAfterHeader(p: seq<string>, line: string, i: nat)
    requires IsHeader(line) && i <= |HeaderAt(p)|
    ensures Section(p + [line], i) == if i < |HeaderAt(p)| then Section(p, i) else if i == 0 then p + [line] else [line]
  {
    HeaderAtAppend(p, line);
    var h := HeaderAt(p);
    var a := if i == 0 then 0 else (h + [|p|])[i];
    if i < |h| {
      var b := if i + 1 < |h| then h[i + 1] else |p|;
      SliceAppend(p, line, a, b);
    } else {
      assert Section(p + [line], i) == (p + [line])[a..|p| + 1];
    }
  }

  /** After a header, each stored entry and the open one hold the text of their sections. */
  predicate SectionsHeld(s: Scan, lines: seq<string>) {
    && |HeaderAt(lines)| == |s.objs| + 1
    && (forall i :: 0 <= i < |s.objs| ==> s.objs[i].1 == LinesText(Section(lines, i)))
    && s.content == LinesText(Section(lines, |s.objs|))
  }

  /**
   * When the header names are distinct, every stored entry holds exactly
   * the lines of its section, and the open entry those of the last one.
   */
  lemma {:induction false} ScanSections(name: Option<string>, lines: seq<string>)
    requires Unique(Headers(lines))
    ensures var s := ScanLines(ScanStart(name), lines);
      && (s.first ==> HeaderAt(lines) == [])
      && (!s.first ==> SectionsHeld(s, lines))
  {
    if lines != [] {
      var p := lines[..|lines| - 1];
      var line := lines[|lines| - 1];
      assert lines == p + [line];
      var h := Headers(p);
      assert Unique(h) by {
        assert Headers(lines) == h || Headers(lines) == h + [ClassName(line)];
        assert forall i :: 0 <= i < |h| ==> h[i] == Headers(lines)[i];
      }
      ScanSections(name, p);
      ScanText(name, p);
      ScanKeys(name, p);
      HeaderAtSpec(p);
      var s := ScanLines(ScanStart(name), p);
      if IsHeader(line) && !s.first {
        FlushAppends(s.objs, s.name.value, s.content, ClassName(line));
      }
      ScanSectionsStep(s, p, line);
    }
  }

  /** One line of `ScanSections`'s induction. */
  lemma ScanSectionsStep(s: Scan, p: seq<string>, line: string)
    requires Named(s)
    requires s.first ==> s.objs == [] && HeaderAt(p) == [] && s.content == LinesText(p)
    requires !s.first ==> SectionsHeld(s, p)
    requires !s.first && IsHeader(line) ==> Put(s.objs, s.name.value, s.content) == s.objs + [(s.name.value, s.content)]
    ensures var r := ScanLine(s, line);
      && (r.first ==> HeaderAt(p + [line]) == [])
      && (!r.first ==> SectionsHeld(r, p + [line]))
  {
    HeaderAtAppend(p, line);
    if !IsHeader(line) {
      if !s.first {
        SectionsBody(s, p, line);
      }
    } else if s.first {
      SectionAfterHeader(p, line, 0);
      assert ScanLine(s, line) == Scan([], s.content + line + "\n", false, Some(ClassName(line)));
      LinesTextAppend(p, line);
    } else {
      SectionsHeader(s, p, line);
    }
  }

  /** A body line goes into the open entry, whose section it extends. */
  lemma SectionsBody(s: Scan, p: seq<string>, line: string)
    requires Named(s) && !s.first && !IsHeader(line) && SectionsHeld(s, p)
    ensures SectionsHeld(ScanLine(s, line), p + [line])
  {
    var r := ScanLine(s, line);
    var n := |HeaderAt(p)|;
    assert r == Scan(s.objs, s.content + line + "\n", false, s.name);
    SectionAfterBody(p, line, n - 1);
    forall i | 0 <= i < |s.objs| ensures r.objs[i].1 == LinesText(Section(p + [line], i)) {
      SectionAfterBody(p, line, i);
    }
    LinesTextAppend(Section(p, n - 1), line);
  }

  /** A header after the first stores the open entry, whose section is complete, and opens its own. */
  lemma SectionsHeader(s: Scan, p: seq<string>, line: string)
    requires Named(s) && !s.first && IsHeader(line) && SectionsHeld(s, p)
    requires Put(s.objs, s.name.value, s.content) == s.objs + [(s.name.value, s.content)]
    ensures SectionsHeld(ScanLine(s, line), p + [line])
  {
    var r := ScanLine(s, line);
    var n := |HeaderAt(p)|;
    SectionAfterHeader(p, line, n);
    assert r == Scan(s.objs + [(s.name.value, s.content)], line + "\n", false, Some(ClassName(line)));
    assert LinesText([line]) == line + "\n" by {
      assert [line][1..] == [];
    }
    forall i | 0 <= i < |r.objs| ensures r.objs[i].1 == LinesText(Section(p + [line], i)) {
      SectionAfterHeader(p, line, i);
      if i < |s.objs| {
        assert r.objs[i] == s.objs[i];
      }
    }
  }

  /** The final store appends the open entry, which then holds the last section. */
  lemma StoredSections(s: Scan, lines: seq<string>)
    requires s.name.Some? && SectionsHeld(s, lines)
    ensures var o := s.objs + [(s.name.value, s.content)];
      && |o| == |HeaderAt(lines)|
      && forall i :: 0 <= i < |HeaderAt(lines)| ==> o[i].1 == LinesText(Section(lines, i))
  {
  }

  /**
   * A file whose header names are distinct splits into exactly one entry
   * per header line, keyed and ordered as the headers are, each holding
   * the lines of its section followed by newlines (text before the first
   * header belongs to the first entry), and concatenating the entries
   * gives back the whole file followed by one newline.
   */
  lemma FileObjectsDistinct(content: string, name: Option<string>)
    requires Unique(Headers(Text.Split(content, '\n')))
    requires Headers(Text.Split(content, '\n')) != [] || name.Some?
    ensures FileObjects(content, name).Success?
    ensures var objs := FileObjects(content, name).value.0;
      var lines := Text.Split(content, '\n');
      && (Headers(lines) != [] ==> Keys(objs) == Headers(lines))
      && (Headers(lines) != [] ==>
            && |objs| == |HeaderAt(lines)|
            && forall i :: 0 <= i < |HeaderAt(lines)| ==> objs[i].1 == LinesText(Section(lines, i)))
      && (Headers(lines) == [] ==> objs == [(name.value, LinesText(lines))])
      && Concat(objs) == content + "\n"
  {
    var lines := Text.Split(content, '\n');
    ScanKeys(name, lines);
    ScanText(name, lines);
    ScanSections(name, lines);
    HeaderAtSpec(lines);
    var s := ScanLines(ScanStart(name), lines);
    Text.JoinSplit(content, '\n');
    LinesTextJoin(lines);
    if !s.first {
      DedupUnique(Headers(lines));
      FlushNew(s.objs, s.name.value, s.content);
      StoredSections(s, lines);
    } else {
      assert Put([], name.value, s.content) == [(name.value, s.content)];
    }
  }

  /** Whatever the names, a file with headers gets one key per distinct header name, first occurrence first. */
  lemma FileObjectsKeys(content: string, name: Option<string>)
    requires Headers(Text.Split(content, '\n')) != []
    ensures FileObjects(content, name).Success?
    ensures Keys(FileObjects(content, name).value.0) == Dedup(Headers(Text.Split(content, '\n')))
    ensures var h := Headers(Text.Split(content, '\n'));
      FileObjects(content, name).value.1 == h[|h| - 1]
  {
    ScanKeys(name, Text.Split(content, '\n'));
  }

  /**
   * A repeated class name keeps its first position but takes the text of
   * its last section: the earlier section is lost.
   */
  lemma FileObjectsRepeated()
    ensures FileObjects("A:\n  x\nA:\n  y", None) == Success(([("A", "A:\n  y\n")], "A"))
  {
    RepeatedLines();
    RepeatedScan();
    assert Put([("A", "A:\n  x\n")], "A", "A:\n  y\n") == [("A", "A:\n  y\n")];
  }

  lemma RepeatedLines()
    ensures Text.Split("A:\n  x\nA:\n  y", '\n') == ["A:", "  x", "A:", "  y"]
  {
    var lines := ["A:", "  x", "A:", "  y"];
    assert Text.Join(lines[3..], '\n') == "  y";
    assert Text.Join(lines[2..], '\n') == "A:\n  y";
    assert Text.Join(lines[1..], '\n') == "  x\nA:\n  y";
    assert Text.Join(lines, '\n') == "A:\n  x\nA:\n  y";
    Text.SplitJoin(lines, '\n');
  }

  lemma RepeatedScan()
    ensures ScanLines(ScanStart(None), ["A:", "  x", "A:", "  y"]) == Scan([("A", "A:\n  x\n")], "A:\n  y\n", false, Some("A"))
  {
    var lines := ["A:", "  x", "A:", "  y"];
    assert ClassName("A:") == "A" by {
      assert Text.Join(["A", ""], ':') == "A:";
      Text.SplitJoin(["A", ""], ':');
    }
    assert IsHeader("A:") && !IsHeader("  x") && !IsHeader("  y");
    var s0 := ScanStart(None);
    assert lines[..1][..0] == [] && lines[..2][..1] == lines[..1] && lines[..3][..2] == lines[..2] && lines[..3] == lines[..|lines| - 1];
    assert ScanLines(s0, lines[..1][..0]) == s0;
    assert lines[..1][0] == "A:" && lines[..2][1] == "  x" && lines[..3][2] == "A:" && lines[3] == "  y";
    var s1 := ScanLines(s0, lines[..1]);
    assert s1 == ScanLine(s0, "A:") == Scan([], "A:\n", false, Some("A"));
    var s2 := ScanLines(s0, lines[..2]);
    assert s2 == ScanLine(s1, "  x") == Scan([], "A:\n  x\n", false, Some("A"));
    var s3 := ScanLines(s0, lines[..3]);
    assert s3 == ScanLine(s2, "A:") == Scan([("A", "A:\n  x\n")], "A:\n", false, Some("A"));
    assert ScanLines(s0, lines) == ScanLine(s3, "  y");
  }

  /** The NameError happens exactly when no class name has been bound by the end of the file. */
  lemma FileObjectsFails(content: string, name: Option<string>)
    ensures FileObjects(content, name).Failure? <==> name.None? && Headers(Text.Split(content, '\n')) == []
  {
    ScanKeys(name, Text.Split(content, '\n'));
  }

  // ---------------------------------------------------------------------
  // _load_object_files, all files

  /** `_create_object_type` for each entry, numbered from `serial`. */
  function ObjectTypes(objs: Entries, serial: nat): (r: seq<Resource>)
    ensures |r| == |objs|
  {
    seq(|objs|, i requires 0 <= i < |objs| => ObjectType(objs[i].0, objs[i].1, serial + i))
  }

  /**
   * The object types `_load_object_files` creates for `files`, the class
   * name carried in as `name` and numbering from `serial`.
   */
  function LoadObjects(files: seq<SourceFile>, name: Option<string>, serial: nat): Result<seq<Resource>, LoadError>
    decreases |files|
  {
    if files == [] then Success([])
    else
      match FileObjects(files[0].content, name)
      case Failure(e) => Failure(e)
      case Success(fo) =>
        match LoadObjects(files[1..], Some(fo.1), serial + |fo.0|)
        case Failure(e) => Failure(e)
        case Success(rest) => Success(ObjectTypes(fo.0, serial) + rest)
  }

  /** The object types are numbered consecutively from `serial`, across files. */
  lemma {:induction false} LoadObjectsNumbering(files: seq<SourceFile>, name: Option<string>, serial: nat)
    ensures var r := LoadObjects(files, name, serial);
      r.Success? ==> forall i :: 0 <= i < |r.value| ==>
        r.value[i].ObjectType? && r.value[i].definitionOrder == serial + i
    decreases |files|
  {
    if files != [] {
      var fo := FileObjects(files[0].content, name);
      if fo.Success? {
        var n := serial + |fo.value.0|;
        LoadObjectsNumbering(files[1..], Some(fo.value.1), n);
        var later := LoadObjects(files[1..], Some(fo.value.1), n);
        if later.Success? {
          var made := ObjectTypes(fo.value.0, serial);
          assert LoadObjects(files, name, serial) == Success(made + later.value);
          forall i | 0 <= i < |made + later.value|
            ensures (made + later.value)[i].ObjectType? && (made + later.value)[i].definitionOrder == serial + i
          {
            if i < |made| {
              assert (made + later.value)[i] == made[i] == ObjectType(fo.value.0[i].0, fo.value.0[i].1, serial + i);
            } else {
              assert (made + later.value)[i] == later.value[i - |made|];
              assert later.value[i - |made|].definitionOrder == n + (i - |made|);
            }
          }
        }
      }
    }
  }

  /** Only the first file can fail, and it does when it has no header line at all. */
  lemma LoadObjectsFails(files: seq<SourceFile>)
    ensures LoadObjects(files, None, 1).Failure? <==>
      files != [] && Headers(Text.Split(files[0].content, '\n')) == []
  {
    if files != [] {
      FileObjectsFails(files[0].content, None);
      var fo := FileObjects(files[0].content, None);
      if fo.Success? {
        LaterFilesSucceed(files[1..], fo.value.1, 1 + |fo.value.0|);
      }
    }
  }

  lemma {:induction false} LaterFilesSucceed(files: seq<SourceFile>, name: string, serial: nat)
    ensures LoadObjects(files, Some(name), serial).Success?
    decreases |files|
  {
    if files != [] {
      FileObjectsFails(files[0].content, Some(name));
      var fo := FileObjects(files[0].content, Some(name));
      LaterFilesSucceed(files[1..], fo.value.1, serial + |fo.value.0|);
    }
  }

  /** As a loop accumulating into `out` sees it: prefix `out` to a success. */
  function Prepend(out: seq<Resource>, r: Result<seq<Resource>, LoadError>): Result<seq<Resource>, LoadError> {
    match r
    case Success(v) => Success(out + v)
    case Failure(e) => Failure(e)
  }

  /** `LoadObjects` past a first file that parses. */
  lemma AdvanceFile(files: seq<SourceFile>, name: Option<string>, serial: nat, objs: Entries, last: string)
    requires files != [] && FileObjects(files[0].content, name) == Success((objs, last))
    ensures LoadObjects(files, name, serial) ==
      Prepend(ObjectTypes(objs, serial), LoadObjects(files[1..], Some(last), serial + |objs|))
  {
  }

  lemma PrependTwice(a: seq<Resource>, b: seq<Resource>, r: Result<seq<Resource>, LoadError>)
    ensures Prepend(a, Prepend(b, r)) == Prepend(a + b, r)
  {
    if r.Success? {
      assert a + (b + r.value) == (a + b) + r.value;
    }
  }

  // ---------------------------------------------------------------------
  // _load_service_files

  /** `line[:5] == "name:"`. */
  predicate IsNameLine(line: string) {
    |line| >= 5 && line[..5] == "name:"
  }

  /**
   * The keys of one service file's dict, in order of first appearance: the
   * second whitespace token of every `name:` line. A `name:` line with fewer
   * than two tokens raises the IndexError.
   */
  function ServiceNames(lines: seq<string>): Result<seq<string>, LoadError> {
    if lines == [] then Success([])
    else
      match ServiceNames(lines[..|lines| - 1])
      case Failure(e) => Failure(e)
      case Success(ns) =>
        var line := lines[|lines| - 1];
        if !IsNameLine(line) then Success(ns)
        else
          var ts := Text.Tokens(line);
          if |ts| < 2 then Failure(IndexError)
          else Success(if ts[1] in ns then ns else ns + [ts[1]])
  }

  predicate NamesService(line: string, k: string) {
    IsNameLine(line) && |Text.Tokens(line)| >= 2 && Text.Tokens(line)[1] == k
  }

  predicate BadNameLine(line: string) {
    IsNameLine(line) && |Text.Tokens(line)| < 2
  }

  /**
   * The scan fails exactly when some `name:` line has fewer than two tokens;
   * otherwise its keys are distinct and are exactly the names given on
   * `name:` lines.
   */
  lemma {:induction false} ServiceNamesSpec(lines: seq<string>)
    ensures ServiceNames(lines).Failure? <==> exists i :: 0 <= i < |lines| && BadNameLine(lines[i])
    ensures ServiceNames(lines).Success? ==>
      && Unique(ServiceNames(lines).value)
      && forall k :: k in ServiceNames(lines).value <==> exists i :: 0 <= i < |lines| && NamesService(lines[i], k)
  {
    if lines != [] {
      var p := lines[..|lines| - 1];
      var line := lines[|lines| - 1];
      ServiceNamesSpec(p);
      assert forall i :: 0 <= i < |p| ==> lines[i] == p[i];
      if ServiceNames(p).Success? {
        var ns := ServiceNames(p).value;
        if ServiceNames(lines).Success? {
          var r := ServiceNames(lines).value;
          forall k
            ensures k in r <==> exists i :: 0 <= i < |lines| && NamesService(lines[i], k)
          {
            if k in r && k !in ns {
              assert NamesService(lines[|lines| - 1], k);
            }
            if exists i :: 0 <= i < |lines| && NamesService(lines[i], k) {
              var i :| 0 <= i < |lines| && NamesService(lines[i], k);
              if i < |p| {
                assert NamesService(p[i], k);
              }
            }
          }
        } else {
          assert BadNameLine(lines[|lines| - 1]);
        }
      } else {
        var i :| 0 <= i < |p| && BadNameLine(p[i]);
        assert BadNameLine(lines[i]);
      }
    }
  }

  /** One `_create_service_definition` per key of the file's dict. */
  function ServiceDefs(names: seq<string>, f: SourceFile): (r: seq<Resource>)
    ensures |r| == |names|
  {
    seq(|names|, i requires 0 <= i < |names| => ServiceDefinition(names[i], f.content, f.path))
  }

  /**
   * What `_load_service_files` appends to `bulk_resources` for `files`,
   * and the error that stops it, if any. Files before the failing one have
   * already been appended.
   */
  function LoadServices(files: seq<SourceFile>): (seq<Resource>, Option<LoadError>)
  {
    if files == [] then ([], None)
    else
      match ServiceNames(Text.Split(files[0].content, '\n'))
      case Failure(e) => ([], Some(e))
      case Success(ns) =>
        var rest := LoadServices(files[1..]);
        (ServiceDefs(ns, files[0]) + rest.0, rest.1)
  }

  /** Only service definitions are buffered. */
  lemma {:induction false} LoadServicesKind(files: seq<SourceFile>)
    ensures forall i :: 0 <= i < |LoadServices(files).0| ==> LoadServices(files).0[i].ServiceDefinition?
  {
    if files != [] {
      LoadServicesKind(files[1..]);
    }
  }

  /**
   * For a single file that loads, one definition per distinct `name:`
   * name, carrying the whole file as its definition and the file path as
   * its namespace.
   */
  lemma LoadServicesOne(f: SourceFile)
    requires !exists i :: 0 <= i < |Text.Split(f.content, '\n')| && BadNameLine(Text.Split(f.content, '\n')[i])
    ensures LoadServices([f]).1 == None
    ensures var defs := LoadServices([f]).0;
      forall i, j :: 0 <= i < j < |defs| ==> defs[i].name != defs[j].name
    ensures var defs := LoadServices([f]).0;
      forall i :: 0 <= i < |defs| ==> defs[i] == ServiceDefinition(defs[i].name, f.content, f.path)
    ensures forall k :: Defines(LoadServices([f]).0, k) <==> NamedOnSomeLine(Text.Split(f.content, '\n'), k)
  {
    var lines := Text.Split(f.content, '\n');
    ServiceNamesSpec(lines);
    var ns := ServiceNames(lines).value;
    assert [f][0] == f && [f][1..] == [];
    assert LoadServices([f]) == (ServiceDefs(ns, f) + LoadServices([]).0, LoadServices([]).1);
    var defs := LoadServices([f]).0;
    assert defs == ServiceDefs(ns, f);
    forall k ensures Defines(defs, k) <==> NamedOnSomeLine(lines, k) {
      if k in ns {
        var i :| 0 <= i < |ns| && ns[i] == k;
        assert defs[i].name == k;
      }
      if Defines(defs, k) {
        var i :| 0 <= i < |defs| && defs[i].name == k;
        assert ns[i] == k;
      }
      assert k in ns <==> exists j :: 0 <= j < |lines| && NamesService(lines[j], k);
    }
  }

  /** Some `name:` line of `lines` names `k`. */
  predicate NamedOnSomeLine(lines: seq<string>, k: string) {
    exists j :: 0 <= j < |lines| && NamesService(lines[j], k)
  }

  /** Some definition in `defs` is named `k`. */
  predicate Defines(defs: seq<Resource>, k: string) {
    exists i :: 0 <= i < |defs| && defs[i].name == k
  }

  /** `LoadServices` past a first file that scans. */
  lemma ServicesPast(files: seq<SourceFile>, names: seq<string>)
    requires files != [] && ServiceNames(Text.Split(files[0].content, '\n')) == Success(names)
    ensures LoadServices(files) == (ServiceDefs(names, files[0]) + LoadServices(files[1..]).0, LoadServices(files[1..]).1)
  {
  }

  // ---------------------------------------------------------------------
  // _load_config_files

  function ConfigKey(f: SourceFile): (string, string) {
    (DirResfilesPath, Text.Basename(f.path))
  }

  /** `bulk_entries` after storing each file under `("/Config", basename)`. */
  function ConfigInto(m: map<(string, string), ConfigEntry>, files: seq<SourceFile>): map<(string, string), ConfigEntry> {
    if files == [] then m
    else
      var f := files[|files| - 1];
      ConfigInto(m, files[..|files| - 1])[ConfigKey(f) := ConfigEntry(f.path, f.content)]
  }

  predicate LastWithKey(files: seq<SourceFile>, i: int) {
    0 <= i < |files| && forall j :: i < j < |files| ==> ConfigKey(files[j]) != ConfigKey(files[i])
  }

  /** Every file's key is present, and the buffer keeps every key it held. */
  lemma {:induction false} ConfigIntoKeys(m: map<(string, string), ConfigEntry>, files: seq<SourceFile>)
    ensures forall i :: 0 <= i < |files| ==> ConfigKey(files[i]) in ConfigInto(m, files)
    ensures m.Keys <= ConfigInto(m, files).Keys
  {
    if files != [] {
      var p := files[..|files| - 1];
      var f := files[|files| - 1];
      ConfigIntoKeys(m, p);
      var before := ConfigInto(m, p);
      assert ConfigInto(m, files) == before[ConfigKey(f) := ConfigEntry(f.path, f.content)];
      forall i | 0 <= i < |files| ensures ConfigKey(files[i]) in ConfigInto(m, files) {
        if i < |p| {
          assert files[i] == p[i];
        }
      }
    }
  }

  /**
   * Every file is stored under `("/Config", its basename)` holding its path
   * and content; of several files with the same basename the last one wins.
   */
  lemma {:induction false} ConfigIntoLastWins(m: map<(string, string), ConfigEntry>, files: seq<SourceFile>, i: int)
    requires LastWithKey(files, i)
    ensures ConfigKey(files[i]) in ConfigInto(m, files)
    ensures ConfigInto(m, files)[ConfigKey(files[i])] == ConfigEntry(files[i].path, files[i].content)
  {
    var p := files[..|files| - 1];
    if i < |p| {
      assert LastWithKey(p, i) by {
        assert forall j :: 0 <= j < |p| ==> files[j] == p[j];
      }
      ConfigIntoLastWins(m, p, i);
    }
  }

  /** Keys no file maps to keep what the buffer held, and no other key appears. */
  lemma {:induction false} ConfigIntoOthers(m: map<(string, string), ConfigEntry>, files: seq<SourceFile>, k: (string, string))
    requires forall i :: 0 <= i < |files| ==> ConfigKey(files[i]) != k
    ensures k in ConfigInto(m, files) <==> k in m
    ensures k in m ==> ConfigInto(m, files)[k] == m[k]
  {
    if files != [] {
      var p := files[..|files| - 1];
      assert forall i :: 0 <= i < |p| ==> files[i] == p[i];
      ConfigIntoOthers(m, p, k);
    }
  }

  // ---------------------------------------------------------------------
  // store_interfaces

  /** A truthy file argument: present and not the empty string. */
  predicate Given(file: Option<string>) {
    file.Some? && file.value != ""
  }

  /** `[file]` when `os.path.exists(file)`, read from `fs`; nothing otherwise. */
  function Existing(file: string, fs: map<string, string>): seq<SourceFile> {
    if file in fs then [SourceFile(file, fs[file])] else []
  }

  /**
   * The files a `store_*_interfaces(file)` call loads: the given file if it
   * exists (only a warning when it does not), else the recursive listing.
   */
  function Sources(file: Option<string>, fs: map<string, string>, listed: seq<SourceFile>): seq<SourceFile> {
    if Given(file) then Existing(file.value, fs) else listed
  }

  /** What a run leaves: resources handed to the registry, resources left in the buffer, the escaping error. */
  datatype StoreOutcome = StoreOutcome(registered: seq<Resource>, pending: seq<Resource>, err: Option<LoadError>)

  /** The service-loading half: register what was buffered, unless an error escaped first. */
  function AfterServices(s: (seq<Resource>, Option<LoadError>)): StoreOutcome {
    if s.1.Some? then StoreOutcome([], s.0, s.1) else StoreOutcome(s.0, [], None)
  }

  /**
   * The dispatch of `store_interfaces`: a single object file, else a single
   * service file, else (unless idempotent and definitions are already
   * stored) all object files then all service files. Object types are
   * made but never buffered, so only service definitions get registered.
   */
  function StorePlan(objectFile: Option<string>, serviceFile: Option<string>, idempotent: bool, stored: bool,
                     fs: map<string, string>, objectFiles: seq<SourceFile>, serviceFiles: seq<SourceFile>): StoreOutcome
  {
    if !Given(objectFile) && !Given(serviceFile) && idempotent && stored then
      StoreOutcome([], [], None)
    else
      AfterServices(Loaded(objectFile, serviceFile, fs, objectFiles, serviceFiles))
  }

  /**
   * The loading step of `store_interfaces`: the buffered service
   * definitions and the escaping error. Object types are made but never
   * buffered, so a single object file buffers nothing.
   */
  function Loaded(objectFile: Option<string>, serviceFile: Option<string>,
                  fs: map<string, string>, objectFiles: seq<SourceFile>, serviceFiles: seq<SourceFile>): (seq<Resource>, Option<LoadError>)
  {
    var objectSources := if Given(objectFile) then Existing(objectFile.value, fs) else if Given(serviceFile) then [] else objectFiles;
    var r := LoadObjects(objectSources, None, 1);
    if r.Failure? then ([], Some(r.error))
    else if Given(objectFile) then ([], None)
    else LoadServices(Sources(serviceFile, fs, serviceFiles))
  }

  /**
   * Properties of the dispatch: the idempotent full run over stored
   * definitions does nothing; a single object file never registers
   * anything; whatever is registered is a service definition; an escaping
   * error registers nothing.
   */
  lemma StorePlanSpec(objectFile: Option<string>, serviceFile: Option<string>, idempotent: bool, stored: bool,
                      fs: map<string, string>, objectFiles: seq<SourceFile>, serviceFiles: seq<SourceFile>)
    ensures var o := StorePlan(objectFile, serviceFile, idempotent, stored, fs, objectFiles, serviceFiles);
      && (!Given(objectFile) && !Given(serviceFile) && idempotent && stored ==> o == StoreOutcome([], [], None))
      && (Given(objectFile) ==> o.registered == [] && o.pending == [])
      && (forall i :: 0 <= i < |o.registered| ==> o.registered[i].ServiceDefinition?)
      && (o.err.Some? ==> o.registered == [])
      && (o.err.None? ==> o.pending == [])
  {
    LoadServicesKind(Sources(serviceFile, fs, serviceFiles));
    LoadServicesKind(Sources(None, fs, serviceFiles));
  }

  /** A missing single file is only a warning: nothing loaded, nothing registered, no error. */
  lemma MissingFileIsHarmless(objectFile: Option<string>, serviceFile: Option<string>, idempotent: bool, stored: bool,
                              fs: map<string, string>, objectFiles: seq<SourceFile>, serviceFiles: seq<SourceFile>)
    requires (Given(objectFile) && objectFile.value !in fs) ||
             (!Given(objectFile) && Given(serviceFile) && serviceFile.value !in fs)
    ensures StorePlan(objectFile, serviceFile, idempotent, stored, fs, objectFiles, serviceFiles) == StoreOutcome([], [], None)
  {
  }

  /** Some ServiceDefinition is in the registry (`find_by_type("ServiceDefinition")` is non-empty). */
  predicate ServiceDefsStored(registry: seq<Resource>) {
    exists i :: 0 <= i < |registry| && registry[i].ServiceDefinition?
  }

  class InterfaceAdmin {
    var idempotent: bool
    /** `bulk_entries`: directory entries waiting for `_register_bulk`. */
    var bulkEntries: map<(string, string), ConfigEntry>
    /** `bulk_resources`: registry resources waiting for `_register_bulk`. */
    var bulkResources: seq<Resource>
    /** `self.serial_num`, reset by `store_interfaces` (the loaders number with a local of their own). */
    var serialNum: nat
    /** The directory's entries, by (path, key). */
    var directory: map<(string, string), ConfigEntry>
    /** The resources in the resource registry, in creation order. */
    var registry: seq<Resource>

    constructor (stored: seq<Resource>)
      ensures registry == stored && directory == map[]
      ensures bulkEntries == map[] && bulkResources == [] && serialNum == 1 && idempotent
    {
      idempotent := true;
      bulkEntries, bulkResources, serialNum := map[], [], 1;
      directory, registry := map[], stored;
    }

    /**
     * `_load_object_files`: for each file, split it into lines and fold them
     * into an OrderedDict of class texts; then make one object type per key,
     * numbered on from the previous file. The object types are made and
     * dropped (nothing is buffered), so they are returned here to be seen.
     */
    method LoadObjectFiles(files: seq<SourceFile>) returns (r: Result<seq<Resource>, LoadError>)
      ensures r == LoadObjects(files, None, 1)
    {
      var serial: nat := 1;
      var name: Option<string> := None;
      var out: seq<Resource> := [];
      var rest := files;
      assert Prepend([], LoadObjects(files, None, 1)) == LoadObjects(files, None, 1) by {
        assert forall v: seq<Resource> :: [] + v == v;
      }
      while rest != []
        invariant LoadObjects(files, None, 1) == Prepend(out, LoadObjects(rest, name, serial))
        decreases |rest|
      {
        var fo := FileClasses(rest[0].content, name);
        if fo.Failure? {
          return Failure(fo.error);
        }
        var objs := fo.value.0;
        var made := MakeObjectTypes(objs, serial);
        ghost var later := LoadObjects(rest[1..], Some(fo.value.1), serial + |objs|);
        AdvanceFile(rest, name, serial, objs, fo.value.1);
        PrependTwice(out, made, later);
        assert LoadObjects(files, None, 1) == Prepend(out + made, later);
        out := out + made;
        name := Some(fo.value.1);
        serial := serial + |objs|;
        rest := rest[1..];
        assert later == LoadObjects(rest, name, serial);
      }
      assert out + [] == out;
      return Success(out);
    }

    /** The line loop of `_load_object_files` for one file, then the final store. */
    method FileClasses(content: string, name0: Option<string>) returns (r: Result<(Entries, string), LoadError>)
      ensures r == FileObjects(content, name0)
    {
      var lines := Text.Split(content, '\n');
      var objs: Entries := [];
      var text := "";
      var first := true;
      var name := name0;
      var j := 0;
      while j < |lines|
        invariant 0 <= j <= |lines|
        invariant first || name.Some?
        invariant ScanLines(ScanStart(name0), lines[..j]) == Scan(objs, text, first, name)
      {
        var line := lines[j];
        assert lines[..j + 1][..j] == lines[..j];
        if |line| > 0 && Text.IsLetter(line[0]) {
          if !first {
            objs := Put(objs, name.value, text);
            text := "";
          } else {
            first := false;
          }
          name := Some(Text.Before(line, ':'));
          text := text + line + "\n";
        } else {
          text := text + line + "\n";
        }
        j := j + 1;
      }
      assert lines[..j] == lines;
      if name.None? {
        return Failure(NameError);
      }
      return Success((Put(objs, name.value, text), name.value));
    }

    /** The key loop of `_load_object_files`: one object type per entry, numbered on from `serial`. */
    method MakeObjectTypes(objs: Entries, serial: nat) returns (out: seq<Resource>)
      ensures out == ObjectTypes(objs, serial)
    {
      out := [];
      var n := serial;
      var k := 0;
      while k < |objs|
        invariant 0 <= k <= |objs|
        invariant n == serial + k
        invariant out == ObjectTypes(objs, serial)[..k]
      {
        assert ObjectTypes(objs, serial)[..k + 1] == ObjectTypes(objs, serial)[..k] + [ObjectType(objs[k].0, objs[k].1, n)];
        out := out + [ObjectType(objs[k].0, objs[k].1, n)];
        n := n + 1;
        k := k + 1;
      }
      assert ObjectTypes(objs, serial)[..k] == ObjectTypes(objs, serial);
    }

    /**
     * `_load_service_files`: for each file, collect the names of its
     * `name:` lines, then append one service definition per name to
     * `bulk_resources`. An IndexError stops it with the earlier files
     * already appended.
     */
    method LoadServiceFiles(files: seq<SourceFile>) returns (err: Option<LoadError>)
      modifies this`bulkResources
      ensures bulkResources == old(bulkResources) + LoadServices(files).0
      ensures err == LoadServices(files).1
    {
      var rest := files;
      ghost var done: seq<Resource> := [];
      assert LoadServices(files).0 == done + LoadServices(files).0;
      assert bulkResources == old(bulkResources) + done;
      while rest != []
        invariant bulkResources == old(bulkResources) + done
        invariant LoadServices(files) == (done + LoadServices(rest).0, LoadServices(rest).1)
        decreases |rest|
      {
        var scanned := ServiceFileNames(rest[0].content);
        if scanned.Failure? {
          assert LoadServices(rest) == ([], Some(scanned.error));
          assert done + [] == done;
          return Some(scanned.error);
        }
        ghost var d := ServiceDefs(scanned.value, rest[0]);
        ghost var later := LoadServices(rest[1..]);
        AppendServiceDefs(scanned.value, rest[0]);
        ServicesPast(rest, scanned.value);
        assert done + (d + later.0) == (done + d) + later.0;
        assert old(bulkResources) + done + d == old(bulkResources) + (done + d);
        done := done + d;
        rest := rest[1..];
      }
      assert done + [] == done;
      return None;
    }

    /** The key loop of `_load_service_files`: one service definition per name, appended to `bulk_resources`. */
    method AppendServiceDefs(names: seq<string>, f: SourceFile)
      modifies this`bulkResources
      ensures bulkResources == old(bulkResources) + ServiceDefs(names, f)
    {
      var k := 0;
      while k < |names|
        invariant 0 <= k <= |names|
        invariant bulkResources == old(bulkResources) + ServiceDefs(names, f)[..k]
      {
        assert ServiceDefs(names, f)[..k + 1] == ServiceDefs(names, f)[..k] + [ServiceDefinition(names[k], f.content, f.path)];
        bulkResources := bulkResources + [ServiceDefinition(names[k], f.content, f.path)];
        k := k + 1;
      }
      assert ServiceDefs(names, f)[..k] == ServiceDefs(names, f);
    }

    /** The line loop of `_load_service_files` for one file's text. */
    method ServiceFileNames(content: string) returns (r: Result<seq<string>, LoadError>)
      ensures r == ServiceNames(Text.Split(content, '\n'))
    {
      var lines := Text.Split(content, '\n');
      var names: seq<string> := [];
      var j := 0;
      while j < |lines|
        invariant 0 <= j <= |lines|
        invariant ServiceNames(lines[..j]) == Success(names)
      {
        var line := lines[j];
        assert lines[..j + 1][..j] == lines[..j];
        if |line| >= 5 && line[..5] == "name:" {
          var ts := Text.Tokens(line);
          if |ts| < 2 {
            ServiceNamesFailureSticks(lines, j + 1);
            return Failure(IndexError);
          }
          if ts[1] !in names {
            names := names + [ts[1]];
          }
        }
        j := j + 1;
      }
      assert lines[..j] == lines;
      return Success(names);
    }

    /** `_load_config_files`: store each file in `bulk_entries` under `("/Config", basename)`. */
    method LoadConfigFiles(files: seq<SourceFile>)
      modifies this`bulkEntries
      ensures bulkEntries == ConfigInto(old(bulkEntries), files)
    {
      var i := 0;
      while i < |files|
        invariant 0 <= i <= |files|
        invariant bulkEntries == ConfigInto(old(bulkEntries), files[..i])
      {
        assert files[..i + 1][..i] == files[..i];
        var key := (DirResfilesPath, Text.Basename(files[i].path));
        bulkEntries := bulkEntries[key := ConfigEntry(files[i].path, files[i].content)];
        i := i + 1;
      }
      assert files[..i] == files;
    }

    /**
     * `_register_bulk`: hand the buffered entries to the directory and the
     * buffered resources to the registry (each only when there are some),
     * emptying both buffers.
     */
    method RegisterBulk()
      modifies this`bulkEntries, this`bulkResources, this`directory, this`registry
      ensures bulkEntries == map[] && bulkResources == []
      ensures directory == old(directory) + old(bulkEntries)
      ensures registry == old(registry) + old(bulkResources)
      ensures old(bulkEntries) == map[] ==> directory == old(directory)
    {
      if bulkEntries != map[] {
        directory := directory + bulkEntries;
        bulkEntries := map[];
      }
      if bulkResources != [] {
        registry := registry + bulkResources;
        bulkResources := [];
      }
    }

    /**
     * `store_interfaces`: reset the buffers, load the requested files and
     * register what was buffered. `fs` is the file system for the single
     * file arguments; `objectFiles` and `serviceFiles` are what the
     * recursive listings find.
     */
    method StoreInterfaces(objectFile: Option<string>, serviceFile: Option<string>, idem: bool,
                           fs: map<string, string>, objectFiles: seq<SourceFile>, serviceFiles: seq<SourceFile>)
      returns (err: Option<LoadError>)
      modifies this`idempotent, this`bulkEntries, this`bulkResources, this`serialNum, this`directory, this`registry
      ensures var o := StorePlan(objectFile, serviceFile, idem, ServiceDefsStored(old(registry)), fs, objectFiles, serviceFiles);
        && registry == old(registry) + o.registered
        && bulkResources == o.pending
        && err == o.err
      ensures directory == old(directory) && bulkEntries == map[]
      ensures idempotent == idem && serialNum == 1
    {
      idempotent := idem;
      bulkEntries := map[];
      bulkResources := [];
      serialNum := 1;
      // The idempotence check belongs to the branch that loads everything.
      if !Given(objectFile) && !Given(serviceFile) && idempotent {
        var stored := HasServiceDefinitions();
        if stored {
          return None;
        }
      }
      err := LoadAndRegister(objectFile, serviceFile, fs, objectFiles, serviceFiles);
    }

    /** The loading of `store_interfaces`, then `_register_bulk` unless an error escaped. */
    method LoadAndRegister(objectFile: Option<string>, serviceFile: Option<string>,
                           fs: map<string, string>, objectFiles: seq<SourceFile>, serviceFiles: seq<SourceFile>)
      returns (err: Option<LoadError>)
      requires bulkEntries == map[] && bulkResources == []
      modifies this`bulkEntries, this`bulkResources, this`directory, this`registry
      ensures var o := AfterServices(Loaded(objectFile, serviceFile, fs, objectFiles, serviceFiles));
        && registry == old(registry) + o.registered
        && bulkResources == o.pending
        && err == o.err
      ensures directory == old(directory) && bulkEntries == map[]
    {
      err := LoadRequested(objectFile, serviceFile, fs, objectFiles, serviceFiles);
      if err.None? {
        RegisterBulk();
      }
    }

    /** The if/elif/else of `store_interfaces` that picks the files to load. */
    method LoadRequested(objectFile: Option<string>, serviceFile: Option<string>,
                         fs: map<string, string>, objectFiles: seq<SourceFile>, serviceFiles: seq<SourceFile>)
      returns (err: Option<LoadError>)
      modifies this`bulkResources
      ensures bulkResources == old(bulkResources) + Loaded(objectFile, serviceFile, fs, objectFiles, serviceFiles).0
      ensures err == Loaded(objectFile, serviceFile, fs, objectFiles, serviceFiles).1
    {
      if Given(objectFile) {
        var r := StoreObjectInterfaces(objectFile, fs, objectFiles);
        err := if r.Failure? then Some(r.error) else None;
      } else if Given(serviceFile) {
        err := StoreServiceInterfaces(serviceFile, fs, serviceFiles);
      } else {
        var r := StoreObjectInterfaces(None, fs, objectFiles);
        if r.Failure? {
          return Some(r.error);
        }
        err := StoreServiceInterfaces(None, fs, serviceFiles);
      }
    }

    /** `store_object_interfaces(file)`: load the given file when it exists, otherwise only warn; with no file, load the listing. */
    method StoreObjectInterfaces(file: Option<string>, fs: map<string, string>, listed: seq<SourceFile>)
      returns (r: Result<seq<Resource>, LoadError>)
      ensures r == LoadObjects(Sources(file, fs, listed), None, 1)
    {
      if file.Some? && file.value != "" && file.value in fs {
        r := LoadObjectFiles([SourceFile(file.value, fs[file.value])]);
      } else if file.Some? && file.value != "" {
        r := Success([]);
      } else {
        r := LoadObjectFiles(listed);
      }
    }

    /** `store_service_interfaces(file)`: load the given file when it exists, otherwise only warn; with no file, load the listing. */
    method StoreServiceInterfaces(file: Option<string>, fs: map<string, string>, listed: seq<SourceFile>)
      returns (err: Option<LoadError>)
      modifies this`bulkResources
      ensures bulkResources == old(bulkResources) + LoadServices(Sources(file, fs, listed)).0
      ensures err == LoadServices(Sources(file, fs, listed)).1
    {
      if file.Some? && file.value != "" && file.value in fs {
        err := LoadServiceFiles([SourceFile(file.value, fs[file.value])]);
      } else if file.Some? && file.value != "" {
        err := None;
        assert Sources(file, fs, listed) == [];
      } else {
        err := LoadServiceFiles(listed);
      }
    }

    /** `rr.find_by_type("ServiceDefinition", id_only=True)` is non-empty. */
    method HasServiceDefinitions() returns (found: bool)
      ensures found <==> ServiceDefsStored(registry)
    {
      found := false;
      var i := 0;
      while i < |registry|
        invariant 0 <= i <= |registry|
        invariant found <==> exists j :: 0 <= j < i && registry[j].ServiceDefinition?
      {
        if registry[i].ServiceDefinition? {
          found := true;
        }
        i := i + 1;
      }
    }
  }

  /** Once a prefix of the lines fails, every longer prefix fails the same way. */
  lemma {:induction false} ServiceNamesFailureSticks(lines: seq<string>, j: nat)
    requires j <= |lines| && ServiceNames(lines[..j]).Failure?
    ensures ServiceNames(lines) == ServiceNames(lines[..j])
    decreases |lines| - j
  {
    if j < |lines| {
      assert lines[..j + 1][..j] == lines[..j];
      ServiceNamesFailureSticks(lines, j + 1);
    } else {
      assert lines[..j] == lines;
    }
  }
}
