/** Reading and writing the .env file (portal_settings_dialog.py). A missing file reads and writes like an empty one. */
module EnvFile {
  import opened Options
  import opened PyText

  // ----- text files -----

  /** Universal newlines: what text mode makes of the file's characters. */
  function Universal(s: string): string {
    if s == [] then []
    else if s[0] == '\r' then "\n" + Universal(if |s| > 1 && s[1] == '\n' then s[2..] else s[1..])
    else [s[0]] + Universal(s[1..])
  }

  /** The length of the first line, its newline included. */
  function LineEnd(s: string): (n: nat)
    requires s != []
    ensures 1 <= n <= |s| && '\n' !in s[..n - 1] && (s[n - 1] == '\n' || n == |s|)
  {
    if s[0] == '\n' || |s| == 1 then 1
    else
      assert s == [s[0]] + s[1..];
      assert s[..LineEnd(s[1..])] == [s[0]] + s[1..][..LineEnd(s[1..]) - 1];
      1 + LineEnd(s[1..])
  }

  /** Iterating over a text file. */
  function Lines(s: string): seq<string> {
    if s == [] then [] else [s[..LineEnd(s)]] + Lines(s[LineEnd(s)..])
  }

  function Join(lines: seq<string>): string {
    if lines == [] then [] else lines[0] + Join(lines[1..])
  }

  predicate WholeLine(l: string) {
    l != [] && l[|l| - 1] == '\n' && '\n' !in l[..|l| - 1]
  }

  lemma LineEndIs(s: string, n: nat)
    requires 1 <= n <= |s| && s[n - 1] == '\n' && '\n' !in s[..n - 1]
    ensures LineEnd(s) == n
  {
    var m := LineEnd(s);
    forall x | 0 <= x < m - 1 ensures s[x] != '\n' { assert s[..m - 1][x] == s[x]; }
    forall x | 0 <= x < n - 1 ensures s[x] != '\n' { assert s[..n - 1][x] == s[x]; }
  }

  lemma {:induction false} LinesOfJoin(lines: seq<string>)
    requires forall i :: 0 <= i < |lines| ==> WholeLine(lines[i])
    ensures Lines(Join(lines)) == lines
  {
    if lines != [] {
      var l, rest := lines[0], Join(lines[1..]);
      var s := l + rest;
      assert s[..|l|] == l && s[|l|..] == rest;
      assert s[..|l| - 1] == l[..|l| - 1] && s[|l| - 1] == '\n';
      LineEndIs(s, |l|);
      LinesOfJoin(lines[1..]);
    }
  }

  lemma {:induction false} LinesAreLines(s: string)
    ensures forall l :: l in Lines(s) ==> l != [] && '\n' !in l[..|l| - 1] && forall c :: c in l ==> c in s
  {
    if s != [] {
      var n := LineEnd(s);
      LinesAreLines(s[n..]);
      assert s[..n][..n - 1] == s[..n - 1];
    }
  }

  lemma {:induction false} UniversalClean(s: string)
    ensures '\r' !in Universal(s)
  {
    if s != [] { UniversalClean(if s[0] == '\r' && |s| > 1 && s[1] == '\n' then s[2..] else s[1..]); }
  }

  lemma {:induction false} UniversalSame(s: string)
    requires '\r' !in s
    ensures Universal(s) == s
  {
    if s != [] { UniversalSame(s[1..]); }
  }

  predicate OneLine(s: string) { '\n' !in s && '\r' !in s }

  predicate LineBreak(s: string) {
    s == "\n" || s == "\r\n" || s == "\r"
  }

  lemma BreakIsRead(end: string, rest: string)
    requires LineBreak(end) && (end == "\r" && rest != [] ==> rest[0] != '\n')
    ensures Universal(end + rest) == "\n" + Universal(rest)
  {
    var s := end + rest;
    assert s[0] == end[0] && s[|end|..] == rest;
    if end == "\r\n" { assert s[1] == '\n'; }
  }

  lemma OtherIsRead(c: char, rest: string)
    requires c != '\r'
    ensures Universal([c] + rest) == [c] + Universal(rest)
  {
    assert ([c] + rest)[0] == c && ([c] + rest)[1..] == rest;
  }

  /** Any of the three line breaks is read as a newline; a carriage return with a newline after it is one with it. */
  lemma {:induction false} LineBreaksAreRead(line: string, end: string, rest: string)
    requires OneLine(line) && LineBreak(end) && (end == "\r" && rest != [] ==> rest[0] != '\n')
    ensures Universal(line + (end + rest)) == line + ("\n" + Universal(rest))
  {
    if line == [] {
      assert line + (end + rest) == end + rest;
      BreakIsRead(end, rest);
    } else {
      var tail := line[1..];
      assert line == [line[0]] + tail && line + (end + rest) == [line[0]] + (tail + (end + rest));
      LineBreaksAreRead(tail, end, rest);
      OtherIsRead(line[0], tail + (end + rest));
    }
  }

  // ----- assignments -----

  /** The index of the first '='. */
  function FirstEquals(s: string): (i: nat)
    requires '=' in s
    ensures i < |s| && s[i] == '=' && '=' !in s[..i]
  {
    if s[0] == '=' then 0
    else
      assert s == [s[0]] + s[1..];
      assert s[..1 + FirstEquals(s[1..])] == [s[0]] + s[1..][..FirstEquals(s[1..])];
      1 + FirstEquals(s[1..])
  }

  /** A line that is neither blank nor a comment and has an '=': its key and value. */
  function Parse(line: string): Option<(string, string)> {
    var t := Strip(line);
    if t != [] && t[0] != '#' && '=' in t then
      Some((Strip(t[..FirstEquals(t)]), Strip(t[FirstEquals(t) + 1..])))
    else None
  }

  type Entry = Option<(string, string)>

  /** What each line assigns, if anything. */
  function Entries(lines: seq<string>): seq<Entry> {
    seq(|lines|, i requires 0 <= i < |lines| => Parse(lines[i]))
  }

  /** The dictionary that later assignments overwrite. */
  function Fold(es: seq<Entry>): map<string, string> {
    if es == [] then map[]
    else
      var n := |es| - 1;
      match es[n]
      case None => Fold(es[..n])
      case Some((k, v)) => Fold(es[..n])[k := v]
  }

  function Read(text: string): map<string, string> {
    Fold(Entries(Lines(Universal(text))))
  }

  lemma FoldNext(es: seq<Entry>, i: nat)
    requires i < |es|
    ensures Fold(es[..i + 1]) == if es[i].None? then Fold(es[..i]) else Fold(es[..i])[es[i].value.0 := es[i].value.1]
  {
    assert es[..i + 1][..i] == es[..i];
  }

  method ReadEnv(text: string) returns (result: map<string, string>)
    ensures result == Read(text)
  {
    var lines := Lines(Universal(text));
    ghost var es := Entries(lines);
    result := map[];
    for i := 0 to |lines|
      invariant result == Fold(es[..i])
    {
      FoldNext(es, i);
      var p := Parse(lines[i]);
      if p.Some? {
        result := result[p.value.0 := p.value.1];
      }
    }
    assert es[..|lines|] == es;
  }

  // ----- writing -----

  type Items = seq<(string, string)>

  predicate DistinctKeys(items: Items) {
    forall i, j :: 0 <= i < j < |items| ==> items[i].0 != items[j].0
  }

  /** The dictionary with these items. */
  function Data(items: Items): map<string, string> {
    if items == [] then map[] else Data(items[..|items| - 1])[items[|items| - 1].0 := items[|items| - 1].1]
  }

  function Assignment(k: string, v: string): string {
    k + "=" + v + "\n"
  }

  function WithNewline(line: string): string {
    if line != [] && line[|line| - 1] == '\n' then line else line + "\n"
  }

  function Rewrite(line: string, data: map<string, string>): string {
    var p := Parse(line);
    if p.Some? && p.value.0 in data then Assignment(p.value.0, data[p.value.0]) else WithNewline(line)
  }

  function RewriteAll(lines: seq<string>, data: map<string, string>): seq<string> {
    seq(|lines|, i requires 0 <= i < |lines| => Rewrite(lines[i], data))
  }

  /** The lines of the items whose key the file did not have. */
  function NewLines(items: Items, existing: set<string>): seq<string> {
    if items == [] then []
    else
      var n := |items| - 1;
      NewLines(items[..n], existing) + if items[n].0 in existing then [] else [Assignment(items[n].0, items[n].1)]
  }

  function WrittenLines(lines: seq<string>, items: Items): seq<string> {
    RewriteAll(lines, Data(items)) + NewLines(items, Fold(Entries(lines)).Keys)
  }

  function Write(text: string, items: Items): string {
    Join(WrittenLines(Lines(Universal(text)), items))
  }

  /** The keys of the data that the file assigns. */
  function Had(es: seq<Entry>, data: map<string, string>): set<string> {
    Fold(es).Keys * data.Keys
  }

  /** The key an entry has in common with the data, if any. */
  function Shared(e: Entry, data: map<string, string>): set<string> {
    if e.Some? && e.value.0 in data then {e.value.0} else {}
  }

  lemma HadNext(es: seq<Entry>, i: nat, data: map<string, string>)
    requires i < |es|
    ensures Had(es[..i + 1], data) == Had(es[..i], data) + Shared(es[i], data)
  {
    FoldNext(es, i);
  }

  method RewriteLine(source: string, data: map<string, string>) returns (line: string, key: set<string>)
    ensures line == Rewrite(source, data) && key == Shared(Parse(source), data)
  {
    var p := Parse(source);
    if p.Some? && p.value.0 in data {
      line := Assignment(p.value.0, data[p.value.0]);
      key := {p.value.0};
    } else {
      line := WithNewline(source);
      key := {};
    }
  }

  /** The pass over the file: its lines rewritten, and which of the data's keys it had. */
  method RewriteExisting(source: seq<string>, data: map<string, string>) 
    returns (lines: seq<string>, existing: set<string>)
    ensures lines == RewriteAll(source, data)
    ensures existing == Had(Entries(source), data)
  {
    ghost var es := Entries(source);
    lines, existing := [], {};
    for i := 0 to |source|
      invariant lines == RewriteAll(source, data)[..i]
      invariant existing == Had(es[..i], data)
    {
      HadNext(es, i, data);
      var line, key := RewriteLine(source[i], data);
      existing := existing + key;
      lines := lines + [line];
    }
    assert es[..|source|] == es;
  }

  lemma {:induction false} DataHas(items: Items, i: nat)
    requires DistinctKeys(items) && i < |items|
    ensures items[i].0 in Data(items) && Data(items)[items[i].0] == items[i].1
  {
    var n := |items| - 1;
    if i < n {
      assert DistinctKeys(items[..n]);
      DataHas(items[..n], i);
    }
  }

  method AppendNew(items: Items, data: map<string, string>, existing: set<string>, ghost had: set<string>)
    returns (lines: seq<string>)
    requires DistinctKeys(items) && data == Data(items) && existing == had * data.Keys
    ensures lines == NewLines(items, had)
  {
    lines := [];
    for i := 0 to |items|
      invariant lines == NewLines(items[..i], had)
    {
      assert items[..i + 1][..i] == items[..i];
      DataHas(items, i);
      if items[i].0 !in existing {
        lines := lines + [Assignment(items[i].0, items[i].1)];
      }
    }
    assert items[..|items|] == items;
  }

  method WriteEnv(text: string, items: Items, data: map<string, string>) returns (out: string)
    requires DistinctKeys(items) && data == Data(items)
    ensures out == Write(text, items)
  {
    var source := Lines(Universal(text));
    var rewritten, existing := RewriteExisting(source, data);
    var added := AppendNew(items, data, existing, Fold(Entries(source)).Keys);
    out := Join(rewritten + added);
  }

  lemma {:induction false} DataKeys(items: Items)
    ensures forall k :: k in Data(items) <==> exists i :: 0 <= i < |items| && items[i].0 == k
  {
    if items != [] {
      var n := |items| - 1;
      DataKeys(items[..n]);
      forall k ensures k in Data(items) <==> exists i :: 0 <= i < |items| && items[i].0 == k {
        if k in Data(items[..n]) { var i :| 0 <= i < n && items[..n][i].0 == k; assert items[i].0 == k; }
        if i :| 0 <= i < |items| && items[i].0 == k { if i < n { assert items[..n][i].0 == k; } }
      }
    }
  }

  // ----- what can be read back -----

  /** Keys and values that survive: stripped, on one line, and for a key no '=' and no leading '#'. */
  predicate CleanKey(k: string) {
    Stripped(k) && OneLine(k) && '=' !in k && (k == [] || k[0] != '#')
  }

  predicate CleanValue(v: string) {
    Stripped(v) && OneLine(v)
  }

  predicate Clean(m: map<string, string>) {
    forall k :: k in m ==> CleanKey(k) && CleanValue(m[k])
  }

  lemma {:induction false} StripLeftNewline(s: string)
    ensures StripLeft(s + "\n") == if StripLeft(s) == [] then [] else StripLeft(s) + "\n"
  {
    if s == [] {
      assert StripLeft("\n") == StripLeft([]);
    } else {
      assert (s + "\n")[1..] == s[1..] + "\n";
      if IsSpace(s[0]) { StripLeftNewline(s[1..]); }
    }
  }

  /** The line's own newline does not matter. */
  lemma StripNewline(s: string)
    ensures Strip(s + "\n") == Strip(s)
  {
    StripLeftNewline(s);
    var t := StripLeft(s);
    if t != [] { assert (t + "\n")[..|t + "\n"| - 1] == t; }
  }

  lemma StripFixed(s: string)
    requires Stripped(s)
    ensures Strip(s) == s
  {
    var _, _ := StripStrips(s);
  }

  lemma FirstEqualsIs(s: string, i: nat)
    requires i < |s| && s[i] == '=' && '=' !in s[..i]
    ensures FirstEquals(s) == i
  {
    var j := FirstEquals(s);
    forall x | 0 <= x < j ensures s[x] != '=' { assert s[..j][x] == s[x]; }
    forall x | 0 <= x < i ensures s[x] != '=' { assert s[..i][x] == s[x]; }
  }

  lemma BareAssignment(k: string, v: string)
    requires CleanKey(k) && CleanValue(v)
    ensures var t := k + "=" + v; Stripped(t) && t[0] != '#' && '=' in t && FirstEquals(t) == |k|
  {
    var t := k + "=" + v;
    assert t[0] == if k == [] then '=' else k[0];
    assert t[|t| - 1] == if v == [] then '=' else v[|v| - 1];
    assert t[..|k|] == k && t[|k|] == '=';
    FirstEqualsIs(t, |k|);
  }

  lemma ParseAssignment(k: string, v: string)
    requires CleanKey(k) && CleanValue(v)
    ensures Parse(Assignment(k, v)) == Some((k, v))
  {
    var t := k + "=" + v;
    BareAssignment(k, v);
    StripNewline(t);
    StripFixed(t);
    assert t[..|k|] == k && t[|k| + 1..] == v;
    StripFixed(k);
    StripFixed(v);
  }

  lemma ParseWithNewline(line: string)
    ensures Parse(WithNewline(line)) == Parse(line)
  {
    StripNewline(line);
  }

  /** What iterating over a text file yields: not empty, and a line break only at the end, if at all. */
  predicate FileLine(line: string) {
    line != [] && '\n' !in line[..|line| - 1] && '\r' !in line
  }

  lemma StripOneLine(line: string)
    requires FileLine(line) || OneLine(line)
    ensures OneLine(Strip(line)) && Stripped(Strip(line))
  {
    var a, b := StripStrips(line);
    var t := Strip(line);
    forall c | 0 <= c < |t| ensures t[c] != '\n' && t[c] != '\r' {
      assert t[c] == line[a + c];
      if a + c < |line| - 1 {
        assert line[..|line| - 1][a + c] == t[c];
      } else {
        assert c == |t| - 1;
      }
    }
  }

  /** Stripping a piece that already starts without space keeps its start. */
  lemma StripKeepsStart(s: string)
    requires s != [] && !IsSpace(s[0])
    ensures Strip(s) != [] ==> Strip(s)[0] == s[0]
  {
    var n := StripRightIsPrefix(s);
  }

  lemma StripNoEquals(s: string)
    requires '=' !in s
    ensures '=' !in Strip(s)
  {
    var a, b := StripStrips(s);
  }

  lemma PiecesAreClean(t: string)
    requires OneLine(t) && Stripped(t) && t != [] && t[0] != '#' && '=' in t
    ensures CleanKey(Strip(t[..FirstEquals(t)])) && CleanValue(Strip(t[FirstEquals(t) + 1..]))
  {
    var e := FirstEquals(t);
    StripOneLine(t[..e]);
    StripOneLine(t[e + 1..]);
    StripNoEquals(t[..e]);
    if e > 0 { StripKeepsStart(t[..e]); }
  }

  /** Whatever a line is, the key and value read from it are clean. */
  lemma ParsedIsClean(line: string)
    requires FileLine(line) && Parse(line).Some?
    ensures CleanKey(Parse(line).value.0) && CleanValue(Parse(line).value.1)
  {
    StripOneLine(line);
    PiecesAreClean(Strip(line));
  }

  lemma {:induction false} FoldIsClean(es: seq<Entry>)
    requires forall i :: 0 <= i < |es| && es[i].Some? ==> CleanKey(es[i].value.0) && CleanValue(es[i].value.1)
    ensures Clean(Fold(es))
  {
    if es != [] { FoldIsClean(es[..|es| - 1]); }
  }

  lemma ReadIsClean(text: string)
    ensures Clean(Read(text))
  {
    var lines := Lines(Universal(text));
    UniversalClean(text);
    LinesAreLines(Universal(text));
    forall i | 0 <= i < |lines| && Entries(lines)[i].Some?
      ensures CleanKey(Entries(lines)[i].value.0) && CleanValue(Entries(lines)[i].value.1)
    {
      assert lines[i] in lines;
      ParsedIsClean(lines[i]);
    }
    FoldIsClean(Entries(lines));
  }

  // ----- round trips -----

  lemma {:induction false} FoldConcat(a: seq<Entry>, b: seq<Entry>)
    ensures Fold(a + b) == Fold(a) + Fold(b)
  {
    if b == [] {
      assert a + b == a;
    } else {
      var n := |b| - 1;
      assert (a + b)[..|a + b| - 1] == a + b[..n];
      FoldConcat(a, b[..n]);
    }
  }

  /** The entry of a rewritten line. */
  function Override(e: Entry, data: map<string, string>): Entry {
    if e.Some? && e.value.0 in data then Some((e.value.0, data[e.value.0])) else e
  }

  lemma ParseRewrite(line: string, data: map<string, string>)
    requires Clean(data)
    ensures Parse(Rewrite(line, data)) == Override(Parse(line), data)
    ensures Rewrite(Rewrite(line, data), data) == Rewrite(line, data)
  {
    var p := Parse(line);
    if p.Some? && p.value.0 in data {
      ParseAssignment(p.value.0, data[p.value.0]);
    } else {
      ParseWithNewline(line);
    }
  }

  function OverrideAll(es: seq<Entry>, data: map<string, string>): seq<Entry> {
    seq(|es|, i requires 0 <= i < |es| => Override(es[i], data))
  }

  function Overridden(m: map<string, string>, data: map<string, string>): map<string, string> {
    map k | k in m :: if k in data then data[k] else m[k]
  }

  lemma OverriddenNext(m: map<string, string>, k: string, v: string, data: map<string, string>)
    ensures Overridden(m[k := v], data) == Overridden(m, data)[k := if k in data then data[k] else v]
  {}

  lemma {:induction false} FoldOverride(es: seq<Entry>, data: map<string, string>)
    ensures Fold(OverrideAll(es, data)) == Overridden(Fold(es), data)
  {
    if es != [] {
      var n := |es| - 1;
      FoldOverride(es[..n], data);
      assert OverrideAll(es, data)[..n] == OverrideAll(es[..n], data);
      assert OverrideAll(es, data)[n] == Override(es[n], data);
      if es[n].Some? {
        OverriddenNext(Fold(es[..n]), es[n].value.0, es[n].value.1, data);
      }
    }
  }

  function NewEntries(items: Items, existing: set<string>): seq<Entry> {
    if items == [] then []
    else
      var n := |items| - 1;
      NewEntries(items[..n], existing) + if items[n].0 in existing then [] else [Some(items[n])]
  }

  lemma LastIsNew(items: Items)
    requires items != [] && DistinctKeys(items)
    ensures items[|items| - 1].0 !in Data(items[..|items| - 1])
  {
    var n := |items| - 1;
    DataKeys(items[..n]);
    assert forall i :: 0 <= i < n ==> items[..n][i] == items[i];
  }

  lemma CleanPrefix(items: Items)
    requires items != [] && DistinctKeys(items) && Clean(Data(items))
    ensures Clean(Data(items[..|items| - 1]))
    ensures CleanKey(items[|items| - 1].0) && CleanValue(items[|items| - 1].1)
  {
    var n := |items| - 1;
    LastIsNew(items);
    DataHas(items, n);
    forall k | k in Data(items[..n]) ensures CleanKey(k) && CleanValue(Data(items[..n])[k]) {
      assert k in Data(items) && Data(items)[k] == Data(items[..n])[k];
    }
  }

  lemma EntriesConcat(a: seq<string>, b: seq<string>)
    ensures Entries(a + b) == Entries(a) + Entries(b)
  {}

  lemma {:induction false} EntriesOfNew(items: Items, existing: set<string>)
    requires DistinctKeys(items) && Clean(Data(items))
    ensures Entries(NewLines(items, existing)) == NewEntries(items, existing)
  {
    if items != [] {
      var n := |items| - 1;
      assert DistinctKeys(items[..n]);
      CleanPrefix(items);
      EntriesOfNew(items[..n], existing);
      if items[n].0 !in existing {
        var l := Assignment(items[n].0, items[n].1);
        ParseAssignment(items[n].0, items[n].1);
        assert Entries([l]) == [Some(items[n])];
        EntriesConcat(NewLines(items[..n], existing), [l]);
      }
    }
  }

  /** The data without the keys the file has. */
  function Missing(data: map<string, string>, existing: set<string>): map<string, string> {
    map k | k in data && k !in existing :: data[k]
  }

  lemma MissingNext(data: map<string, string>, k: string, v: string, existing: set<string>)
    requires k !in data
    ensures Missing(data[k := v], existing)
         == if k in existing then Missing(data, existing) else Missing(data, existing)[k := v]
  {}

  lemma FoldLast(es: seq<Entry>, k: string, v: string)
    ensures Fold(es + [Some((k, v))]) == Fold(es)[k := v]
  {
    var all := es + [Some((k, v))];
    assert all[..|all| - 1] == es && all[|all| - 1] == Some((k, v));
  }

  lemma {:induction false} FoldNew(items: Items, existing: set<string>)
    requires DistinctKeys(items)
    ensures Fold(NewEntries(items, existing)) == Missing(Data(items), existing)
  {
    if items != [] {
      var n := |items| - 1;
      assert DistinctKeys(items[..n]);
      FoldNew(items[..n], existing);
      LastIsNew(items);
      MissingNext(Data(items[..n]), items[n].0, items[n].1, existing);
      if items[n].0 !in existing {
        FoldLast(NewEntries(items[..n], existing), items[n].0, items[n].1);
      } else {
        assert NewEntries(items, existing) == NewEntries(items[..n], existing);
      }
    }
  }

  lemma EntriesOfRewritten(lines: seq<string>, data: map<string, string>)
    requires Clean(data)
    ensures Entries(RewriteAll(lines, data)) == OverrideAll(Entries(lines), data)
    ensures RewriteAll(RewriteAll(lines, data), data) == RewriteAll(lines, data)
  {
    forall i | 0 <= i < |lines|
      ensures Parse(Rewrite(lines[i], data)) == Override(Parse(lines[i]), data)
      ensures Rewrite(Rewrite(lines[i], data), data) == Rewrite(lines[i], data)
    {
      ParseRewrite(lines[i], data);
    }
  }

  lemma EntriesOfWritten(lines: seq<string>, items: Items)
    requires DistinctKeys(items) && Clean(Data(items))
    ensures var es := Entries(lines);
            Entries(WrittenLines(lines, items)) == OverrideAll(es, Data(items)) + NewEntries(items, Fold(es).Keys)
  {
    var a, b := RewriteAll(lines, Data(items)), NewLines(items, Fold(Entries(lines)).Keys);
    EntriesOfRewritten(lines, Data(items));
    EntriesOfNew(items, Fold(Entries(lines)).Keys);
    EntriesConcat(a, b);
  }

  lemma ReadWrittenLines(lines: seq<string>, items: Items)
    requires DistinctKeys(items) && Clean(Data(items))
    ensures Fold(Entries(WrittenLines(lines, items))) == Fold(Entries(lines)) + Data(items)
  {
    var data, es := Data(items), Entries(lines);
    EntriesOfWritten(lines, items);
    FoldConcat(OverrideAll(es, data), NewEntries(items, Fold(es).Keys));
    FoldOverride(es, data);
    FoldNew(items, Fold(es).Keys);
  }

  lemma AssignmentIsWhole(k: string, v: string)
    requires CleanKey(k) && CleanValue(v)
    ensures WholeLine(Assignment(k, v)) && '\r' !in Assignment(k, v)
  {
    var l := Assignment(k, v);
    assert l[..|l| - 1] == k + "=" + v;
  }

  lemma {:induction false} NewLinesWhole(items: Items, existing: set<string>)
    requires DistinctKeys(items) && Clean(Data(items))
    ensures forall i :: 0 <= i < |NewLines(items, existing)| ==>
      WholeLine(NewLines(items, existing)[i]) && '\r' !in NewLines(items, existing)[i]
  {
    if items != [] {
      var n := |items| - 1;
      assert DistinctKeys(items[..n]);
      CleanPrefix(items);
      NewLinesWhole(items[..n], existing);
      AssignmentIsWhole(items[n].0, items[n].1);
    }
  }

  lemma {:induction false} JoinClean(lines: seq<string>)
    requires forall i :: 0 <= i < |lines| ==> '\r' !in lines[i]
    ensures '\r' !in Join(lines)
  {
    if lines != [] { JoinClean(lines[1..]); }
  }

  lemma RewrittenIsWhole(line: string)
    requires line != [] && '\n' !in line[..|line| - 1] && '\r' !in line
    ensures WholeLine(WithNewline(line)) && '\r' !in WithNewline(line)
  {
    var l := WithNewline(line);
    if line[|line| - 1] != '\n' {
      assert l[..|l| - 1] == line && line == line[..|line| - 1] + [line[|line| - 1]];
    }
  }

  lemma WrittenLinesAreWhole(lines: seq<string>, items: Items)
    requires DistinctKeys(items) && Clean(Data(items))
    requires forall l :: l in lines ==> FileLine(l)
    ensures var written := WrittenLines(lines, items);
            forall i :: 0 <= i < |written| ==> WholeLine(written[i]) && '\r' !in written[i]
  {
    var written := WrittenLines(lines, items);
    NewLinesWhole(items, Fold(Entries(lines)).Keys);
    forall i | 0 <= i < |written| ensures WholeLine(written[i]) && '\r' !in written[i] {
      if i < |lines| {
        assert lines[i] in lines;
        var p := Parse(lines[i]);
        if p.Some? && p.value.0 in Data(items) { AssignmentIsWhole(p.value.0, Data(items)[p.value.0]); }
        else { RewrittenIsWhole(lines[i]); }
      } else {
        assert written[i] == NewLines(items, Fold(Entries(lines)).Keys)[i - |lines|];
      }
    }
  }

  /** With clean data, the written file splits into exactly the lines that were written. */
  lemma WrittenSplits(text: string, items: Items)
    requires DistinctKeys(items) && Clean(Data(items))
    ensures Lines(Universal(Write(text, items))) == WrittenLines(Lines(Universal(text)), items)
  {
    var written := WrittenLines(Lines(Universal(text)), items);
    UniversalClean(text);
    LinesAreLines(Universal(text));
    WrittenLinesAreWhole(Lines(Universal(text)), items);
    LinesOfJoin(written);
    JoinClean(written);
    UniversalSame(Join(written));
  }

  /** Reading after writing gives the old mapping overridden by the new data exactly when every key and value of the
      data is clean, whatever the file held before. */
  lemma RoundTripExactlyWhenClean(text: string, items: Items)
    requires DistinctKeys(items)
    ensures Read(Write(text, items)) == Read(text) + Data(items) <==> Clean(Data(items))
  {
    var data := Data(items);
    if Clean(data) {
      WrittenSplits(text, items);
      ReadWrittenLines(Lines(Universal(text)), items);
    }
    if Read(Write(text, items)) == Read(text) + data {
      ReadIsClean(Write(text, items));
      forall k | k in data ensures CleanKey(k) && CleanValue(data[k]) {
        assert Read(Write(text, items))[k] == data[k];
      }
    }
  }

  /** Comments, blank lines and assignments to other keys stay where they are, unchanged (the last line gains a
      newline if it had none). */
  lemma OtherLinesSurvive(text: string, items: Items, i: nat)
    requires DistinctKeys(items) && Clean(Data(items)) && i < |Lines(Universal(text))|
    requires var p := Parse(Lines(Universal(text))[i]); p.None? || p.value.0 !in Data(items)
    ensures var after := Lines(Universal(Write(text, items)));
            i < |after| && after[i] == WithNewline(Lines(Universal(text))[i])
  {
    WrittenSplits(text, items);
  }

  /** A line that assigns a key of the data gets its value, in its place, as `key=value`. */
  lemma KnownKeysAreRewritten(text: string, items: Items, i: nat)
    requires DistinctKeys(items) && Clean(Data(items)) && i < |Lines(Universal(text))|
    requires var p := Parse(Lines(Universal(text))[i]); p.Some? && p.value.0 in Data(items)
    ensures var after := Lines(Universal(Write(text, items)));
            var k := Parse(Lines(Universal(text))[i]).value.0;
            i < |after| && after[i] == k + "=" + Data(items)[k] + "\n"
  {
    WrittenSplits(text, items);
  }

  /** The items whose key the file does not assign. */
  function NewItems(text: string, items: Items): Items {
    if items == [] then []
    else
      var n := |items| - 1;
      NewItems(text, items[..n]) + if items[n].0 in Read(text) then [] else [items[n]]
  }

  lemma {:induction false} NewLinesAre(text: string, items: Items)
    ensures var lines, news := NewLines(items, Read(text).Keys), NewItems(text, items);
            |lines| == |news| && forall i :: 0 <= i < |news| ==> lines[i] == news[i].0 + "=" + news[i].1 + "\n"
  {
    if items != [] { NewLinesAre(text, items[..|items| - 1]); }
  }

  lemma AtTheEnd(a: seq<string>, b: seq<string>, i: nat)
    requires i < |b|
    ensures |a + b| == |a| + |b| && (a + b)[|a| + i] == b[i]
  {}

  /** The lines behind the first `n` are those of the new items. */
  predicate EndsWithItems(lines: seq<string>, n: nat, news: Items) {
    |lines| == n + |news| && forall i :: 0 <= i < |news| ==> lines[n + i] == news[i].0 + "=" + news[i].1 + "\n"
  }

  lemma WrittenEndsWithItems(text: string, items: Items)
    ensures EndsWithItems(WrittenLines(Lines(Universal(text)), items), |Lines(Universal(text))|, NewItems(text, items))
  {
    var lines, news := Lines(Universal(text)), NewItems(text, items);
    var old_, added := RewriteAll(lines, Data(items)), NewLines(items, Read(text).Keys);
    NewLinesAre(text, items);
    forall i | 0 <= i < |news| ensures (old_ + added)[|old_| + i] == news[i].0 + "=" + news[i].1 + "\n" {
      AtTheEnd(old_, added, i);
    }
  }

  /** Behind the lines of the file come the new keys, in their order, each as `key=value`, and nothing else. */
  lemma NewKeysAreAppended(text: string, items: Items)
    requires DistinctKeys(items) && Clean(Data(items))
    ensures EndsWithItems(Lines(Universal(Write(text, items))), |Lines(Universal(text))|, NewItems(text, items))
  {
    WrittenSplits(text, items);
    WrittenEndsWithItems(text, items);
  }

  lemma {:induction false} NothingNew(items: Items, existing: set<string>)
    requires forall k :: k in Data(items) ==> k in existing
    ensures NewLines(items, existing) == []
  {
    if items != [] {
      NothingNew(items[..|items| - 1], existing);
    }
  }

  lemma RewriteConcat(a: seq<string>, b: seq<string>, data: map<string, string>)
    ensures RewriteAll(a + b, data) == RewriteAll(a, data) + RewriteAll(b, data)
  {}

  lemma {:induction false} NewLinesAreFixed(part: Items, items: Items, existing: set<string>)
    requires DistinctKeys(items) && Clean(Data(items)) && part <= items
    ensures RewriteAll(NewLines(part, existing), Data(items)) == NewLines(part, existing)
  {
    if part != [] {
      var n := |part| - 1;
      NewLinesAreFixed(part[..n], items, existing);
      DataHas(items, n);
      ParseAssignment(part[n].0, part[n].1);
      RewriteConcat(NewLines(part[..n], existing), [Assignment(part[n].0, part[n].1)], Data(items));
    }
  }

  lemma WrittenIsFixed(lines: seq<string>, items: Items)
    requires DistinctKeys(items) && Clean(Data(items))
    ensures WrittenLines(WrittenLines(lines, items), items) == WrittenLines(lines, items)
  {
    var data, written := Data(items), WrittenLines(lines, items);
    var had := Fold(Entries(lines)).Keys;
    ReadWrittenLines(lines, items);
    NothingNew(items, Fold(Entries(written)).Keys);
    EntriesOfRewritten(lines, data);
    NewLinesAreFixed(items, items, had);
    RewriteConcat(RewriteAll(lines, data), NewLines(items, had), data);
    assert written + [] == written;
  }

  /** A second write of the same data changes nothing. */
  lemma SecondWriteChangesNothing(text: string, items: Items)
    requires DistinctKeys(items) && Clean(Data(items))
    ensures Write(Write(text, items), items) == Write(text, items)
  {
    WrittenSplits(text, items);
    WrittenIsFixed(Lines(Universal(text)), items);
  }
}
