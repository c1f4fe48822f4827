/** The text format of configuration files, and what loading and saving make of it. */
module Config {
  import opened Bytes

  const MAX_LINE := 256
  const NUL: char := '\0'

  // -------------------------------------------------------------- characters

  predicate IsSpace(c: char) { c == ' ' || 9 as char <= c <= 13 as char }

  function Lower(c: char): (d: char)
    ensures !('A' <= d <= 'Z') && (!('A' <= c <= 'Z') ==> d == c)
    ensures IsSpace(d) <==> IsSpace(c)
    ensures d == '#' || d == '=' || d == '\n' || d == NUL ==> d == c
  {
    if 'A' <= c <= 'Z' then (c as int + 32) as char else c
  }

  /** The same letter in capitals and in small letters, or the same character. */
  predicate SameLetter(c: char, d: char)
  {
    c == d || ('A' <= c <= 'Z' && d as int == c as int - 'A' as int + 'a' as int) || ('A' <= d <= 'Z' && c as int == d as int - 'A' as int + 'a' as int)
  }

  /** Case is all that is lost. */
  lemma LowerSame(c: char, d: char)
    ensures Lower(c) == Lower(d) <==> SameLetter(c, d)
  {
  }

  function LowerAll(s: string): (r: string)
    ensures |r| == |s| && forall i :: 0 <= i < |s| ==> r[i] == Lower(s[i])
  {
    seq(|s|, i requires 0 <= i < |s| => Lower(s[i]))
  }

  /** Position of the first `ch`, or the length. */
  function Find(s: string, ch: char): (k: nat)
    ensures k <= |s| && ch !in s[..k] && (k < |s| ==> s[k] == ch)
  {
    if s == [] || s[0] == ch then 0 else
    var k := Find(s[1..], ch);
    assert s[..1 + k] == [s[0]] + s[1..][..k];
    1 + k
  }

  lemma FindAt(s: string, ch: char, k: nat)
    requires k <= |s| && ch !in s[..k] && (k < |s| ==> s[k] == ch)
    ensures Find(s, ch) == k
  {
    var f := Find(s, ch);
  }

  function Before(s: string, ch: char): string { s[..Find(s, ch)] }

  // ---------------------------------------------------------------- trimming

  function TrimLeft(s: string): string
  {
    if s != [] && IsSpace(s[0]) then TrimLeft(s[1..]) else s
  }

  function TrimRight(s: string): string
  {
    if s != [] && IsSpace(s[|s| - 1]) then TrimRight(s[..|s| - 1]) else s
  }

  lemma {:induction false} TrimLeftIs(s: string) returns (k: nat)
    ensures k <= |s| && TrimLeft(s) == s[k..] && (k < |s| ==> !IsSpace(s[k])) && Spaces(s[..k])
  {
    if s != [] && IsSpace(s[0]) {
      k := TrimLeftIs(s[1..]);
      assert s[1..][k..] == s[1 + k..];
      assert s[..1 + k] == [s[0]] + s[1..][..k];
      k := k + 1;
    } else {
      k := 0;
    }
  }

  lemma {:induction false} TrimRightIs(s: string) returns (k: nat)
    ensures k <= |s| && TrimRight(s) == s[..k] && (k > 0 ==> !IsSpace(s[k - 1])) && Spaces(s[k..])
  {
    if s != [] && IsSpace(s[|s| - 1]) {
      k := TrimRightIs(s[..|s| - 1]);
      assert s[..|s| - 1][..k] == s[..k];
      assert s[k..] == s[..|s| - 1][k..] + [s[|s| - 1]];
    } else {
      k := |s|;
      assert s[..|s|] == s;
    }
  }

  function Trim(s: string): string { TrimRight(TrimLeft(s)) }

  predicate Spaces(s: string) { forall i :: 0 <= i < |s| ==> IsSpace(s[i]) }

  predicate Trimmed(s: string) { s == [] || (!IsSpace(s[0]) && !IsSpace(s[|s| - 1])) }

  lemma TrimTrims(s: string)
    ensures Trimmed(Trim(s)) && |Trim(s)| <= |s| && forall c :: c in Trim(s) ==> c in s
  {
    var k := TrimLeftIs(s);
    var j := TrimRightIs(s[k..]);
    assert s[k..][..j] == s[k..k + j];
  }

  /** All that trimming drops is white space, at both ends. */
  lemma TrimParts(s: string) returns (l: string, r: string)
    ensures s == l + Trim(s) + r && Spaces(l) && Spaces(r)
  {
    var k := TrimLeftIs(s);
    var j := TrimRightIs(s[k..]);
    l, r := s[..k], s[k..][j..];
    assert s == s[..k] + s[k..] && s[k..] == s[k..][..j] + s[k..][j..];
  }

  lemma {:induction false} TrimLeftSpaces(l: string, x: string)
    requires Spaces(l)
    ensures TrimLeft(l + x) == TrimLeft(x)
  {
    if l == [] {
      assert l + x == x;
    } else {
      assert (l + x)[1..] == l[1..] + x;
      TrimLeftSpaces(l[1..], x);
    }
  }

  lemma {:induction false} TrimRightSpaces(x: string, r: string)
    requires Spaces(r)
    ensures TrimRight(x + r) == TrimRight(x)
  {
    if r == [] {
      assert x + r == x;
    } else {
      var t := x + r;
      assert t[..|t| - 1] == x + r[..|r| - 1] && t[|t| - 1] == r[|r| - 1];
      TrimRightSpaces(x, r[..|r| - 1]);
    }
  }

  /** And it drops all of it: whatever white space is put around a trimmed text, trimming gives the text back. */
  lemma TrimAround(l: string, t: string, r: string)
    requires Spaces(l) && Spaces(r) && Trimmed(t)
    ensures Trim(l + t + r) == t
  {
    assert l + t + r == l + (t + r);
    TrimLeftSpaces(l, t + r);
    if t == [] {
      assert t + r == r + "" && "" == t;
      TrimLeftSpaces(r, "");
    } else {
      assert TrimLeft(t + r) == t + r;
      TrimRightSpaces(t, r);
    }
  }

  lemma TrimId(s: string)
    requires Trimmed(s)
    ensures Trim(s) == s && Trim(s + "\n") == s
  {
    TrimAround("", s, "");
    TrimAround("", s, "\n");
    assert "" + s + "" == s && "" + s + "\n" == s + "\n";
  }

  /** cfg_norm_key: trimmed and in lower case, and nothing for an empty key. */
  function NormKey(s: string): (r: Option<string>)
  {
    var t := Trim(s);
    if t == [] then None else Some(LowerAll(t))
  }

  lemma NormKeyNormal(s: string)
    requires NormKey(s).Some?
    ensures NormKey(s).value != [] && Normal(NormKey(s).value)
  {
    TrimTrims(s);
  }

  /** Two keys name the same entry exactly when they differ only in case and in white space around them. */
  lemma SameKey(s: string, t: string)
    requires NormKey(s).Some?
    ensures NormKey(s) == NormKey(t) <==> |Trim(s)| == |Trim(t)| && forall i :: 0 <= i < |Trim(s)| ==> SameLetter(Trim(s)[i], Trim(t)[i])
  {
    var a, b := Trim(s), Trim(t);
    forall i | 0 <= i < |a| && i < |b| ensures Lower(a[i]) == Lower(b[i]) <==> SameLetter(a[i], b[i]) {
      LowerSame(a[i], b[i]);
    }
    if |a| == |b| && forall i :: 0 <= i < |a| ==> SameLetter(a[i], b[i]) {
      assert LowerAll(a) == LowerAll(b);
    }
  }

  predicate Normal(k: string) { Trimmed(k) && forall i :: 0 <= i < |k| ==> Lower(k[i]) == k[i] }

  lemma NormKeyId(k: string)
    requires k != [] && Normal(k)
    ensures NormKey(k) == Some(k)
  {
    TrimId(k);
    assert LowerAll(k) == k;
  }

  // ----------------------------------------------------------------- entries

  datatype Entry = Entry(key: string, value: string)

  /** Position of the entry with this key, or the length. */
  function Index(c: seq<Entry>, key: string): (k: nat)
    ensures k <= |c| && (forall i :: 0 <= i < k ==> c[i].key != key) && (k < |c| ==> c[k].key == key)
  {
    if c == [] || c[0].key == key then 0 else 1 + Index(c[1..], key)
  }

  /** What cfg_set makes of a list whose keys are normal: an existing entry changes in place, a new one is appended. */
  function Put(c: seq<Entry>, key: string, value: string): seq<Entry>
  {
    var k := Index(c, key);
    if k < |c| then c[k := Entry(key, value)] else c + [Entry(key, value)]
  }

  function Set(c: seq<Entry>, key: string, value: string): seq<Entry>
  {
    match NormKey(key)
    case None => c
    case Some(k) => Put(c, k, Trim(value))
  }

  ghost predicate EntryOk(e: Entry) { e.key != [] && Normal(e.key) && Trimmed(e.value) }

  /** Keys are unique, not empty and normal; values are trimmed. */
  ghost predicate Ok(c: seq<Entry>)
  {
    && (forall i :: 0 <= i < |c| ==> EntryOk(c[i]))
    && (forall i, j :: 0 <= i < j < |c| ==> c[i].key != c[j].key)
  }

  lemma PutOk(c: seq<Entry>, e: Entry)
    requires Ok(c) && EntryOk(e)
    ensures Ok(Put(c, e.key, e.value))
  {
    var d := Put(c, e.key, e.value);
    forall i | 0 <= i < |d| ensures EntryOk(d[i]) {
      assert d[i] == e || d[i] == c[i];
    }
  }

  lemma SetOk(c: seq<Entry>, key: string, value: string)
    requires Ok(c)
    ensures Ok(Set(c, key, value))
  {
    TrimTrims(value);
    var k := NormKey(key);
    if k.Some? {
      NormKeyNormal(key);
      PutOk(c, Entry(k.value, Trim(value)));
    }
  }

  // ----------------------------------------------------------------- loading

  /** What fgets hands over: up to 256 characters, through the end of the line. */
  function Chunk(t: string): (n: nat)
    requires t != []
    ensures 0 < n <= |t| && n <= MAX_LINE
    ensures forall i :: 0 <= i < n - 1 ==> t[i] != '\n'
  {
    var k := Find(t, '\n');
    assert forall i :: 0 <= i < k ==> t[i] == t[..k][i];
    Min(MAX_LINE, if k < |t| then k + 1 else k)
  }

  /** One line: up to a NUL or '#', split at the first '='. */
  function LoadLine(c: seq<Entry>, line: string): seq<Entry>
  {
    var s := Before(Before(line, NUL), '#');
    var k := Find(s, '=');
    if k < |s| then Set(c, s[..k], s[k + 1..]) else c
  }

  function LoadText(c: seq<Entry>, t: string): seq<Entry>
    decreases |t|
  {
    if t == [] then c else var n := Chunk(t); LoadText(LoadLine(c, t[..n]), t[n..])
  }

  // ------------------------------------------------------------------ saving

  function Line(e: Entry): string { e.key + "=" + e.value + "\n" }

  function SaveText(c: seq<Entry>): string
  {
    if c == [] then "" else Line(c[0]) + SaveText(c[1..])
  }

  /** An entry that a line of text can hold. */
  ghost predicate FitsLine(e: Entry)
  {
    && Plain(e.key) && Plain(e.value) && '=' !in e.key
    && |e.key| + 1 + |e.value| <= MAX_LINE
  }

  ghost predicate Plain(s: string) { '#' !in s && '\n' !in s && NUL !in s }

  ghost predicate Loadable(c: seq<Entry>)
  {
    forall i :: 0 <= i < |c| ==> FitsLine(c[i])
  }

  // -------------------------------------------------- what loading gives

  /** A line end can only be the last character of a chunk, and trimming removes it. */
  lemma TrimDropsNewline(x: string)
    requires forall i :: 0 <= i < |x| - 1 ==> x[i] != '\n'
    ensures '\n' !in Trim(x)
  {
    var k := TrimLeftIs(x);
    var j := TrimRightIs(x[k..]);
    var r := x[k..][..j];
    forall i | 0 <= i < |r| ensures r[i] != '\n' {
      assert r[i] == x[k + i];
    }
  }

  lemma NormKeyPlain(s: string, k: string)
    requires NormKey(s) == Some(k) && Plain(s) && '=' !in s
    ensures Plain(k) && '=' !in k && |k| <= |s|
  {
    TrimTrims(s);
    var t := Trim(s);
    forall i | 0 <= i < |k| ensures k[i] != '#' && k[i] != '\n' && k[i] != NUL && k[i] != '=' {
      assert k[i] == Lower(t[i]) && t[i] in s;
    }
  }

  lemma BeforeIs(s: string, ch: char)
    ensures ch !in Before(s, ch) && |Before(s, ch)| <= |s| && Before(s, ch) <= s
  {
  }

  /** What is left of a chunk has no NUL and no '#', and a line end at most as its last character. */
  lemma CutLine(line: string, s: string)
    requires s == Before(Before(line, NUL), '#') && forall i :: 0 <= i < |line| - 1 ==> line[i] != '\n'
    ensures NUL !in s && '#' !in s && |s| <= |line| && forall i :: 0 <= i < |s| - 1 ==> s[i] != '\n'
  {
    BeforeIs(line, NUL);
    BeforeIs(Before(line, NUL), '#');
    assert forall i :: 0 <= i < |s| ==> s[i] == line[i];
  }

  lemma PutFits(c: seq<Entry>, e: Entry)
    requires Loadable(c) && FitsLine(e)
    ensures Loadable(Put(c, e.key, e.value))
  {
    var d := Put(c, e.key, e.value);
    forall i | 0 <= i < |d| ensures FitsLine(d[i]) {
      assert d[i] == e || d[i] == c[i];
    }
  }

  lemma SetFits(c: seq<Entry>, key: string, value: string)
    requires Loadable(c) && Plain(key) && '=' !in key && NUL !in value && '#' !in value && |key| + 1 + |value| <= MAX_LINE
    requires forall i :: 0 <= i < |value| - 1 ==> value[i] != '\n'
    ensures Loadable(Set(c, key, value))
  {
    TrimDropsNewline(value);
    TrimTrims(value);
    var k := NormKey(key);
    if k.Some? {
      NormKeyPlain(key, k.value);
      PutFits(c, Entry(k.value, Trim(value)));
    }
  }

  lemma SplitPlain(s: string, k: nat, v: string)
    requires NUL !in s && '#' !in s && k < |s| && forall i :: 0 <= i < |s| - 1 ==> s[i] != '\n'
    requires v == s[k + 1..]
    ensures Plain(s[..k]) && NUL !in v && '#' !in v
    ensures forall i :: 0 <= i < |v| - 1 ==> v[i] != '\n'
  {
    assert forall i :: 0 <= i < k ==> s[..k][i] == s[i];
  }

  lemma LoadLineOk(c: seq<Entry>, line: string)
    requires Ok(c)
    ensures Ok(LoadLine(c, line))
  {
    var s := Before(Before(line, NUL), '#');
    var k := Find(s, '=');
    if k < |s| {
      SetOk(c, s[..k], s[k + 1..]);
    }
  }

  /** Whatever a chunk adds can be written on one line. */
  lemma LoadLineFits(c: seq<Entry>, line: string)
    requires Loadable(c) && |line| <= MAX_LINE && forall i :: 0 <= i < |line| - 1 ==> line[i] != '\n'
    ensures Loadable(LoadLine(c, line))
  {
    var s := Before(Before(line, NUL), '#');
    CutLine(line, s);
    var k := Find(s, '=');
    if k < |s| {
      SplitPlain(s, k, s[k + 1..]);
      SetFits(c, s[..k], s[k + 1..]);
    }
  }

  /** Loading any text into a list that fits gives a list that fits. */
  lemma {:induction false} LoadFits(c: seq<Entry>, t: string)
    requires Ok(c) && Loadable(c)
    ensures Ok(LoadText(c, t)) && Loadable(LoadText(c, t))
    decreases |t|
  {
    if t != [] {
      var n := Chunk(t);
      LoadLineOk(c, t[..n]);
      LoadLineFits(c, t[..n]);
      LoadFits(LoadLine(c, t[..n]), t[n..]);
    }
  }

  // ------------------------------------------------------- reading back

  lemma BeforeNothing(s: string, ch: char)
    requires ch !in s
    ensures Before(s, ch) == s
  {
    assert s[..|s|] == s;
    FindAt(s, ch, |s|);
  }

  lemma LineSplits(key: string, rest: string, line: string)
    requires line == key + "=" + rest && Plain(key) && '=' !in key && '#' !in rest && NUL !in rest
    ensures Before(Before(line, NUL), '#') == line
    ensures Find(line, '=') == |key| < |line| && line[..|key|] == key && line[|key| + 1..] == rest
  {
    BeforeNothing(line, NUL);
    BeforeNothing(line, '#');
    assert line[..|key|] == key;
    FindAt(line, '=', |key|);
  }

  lemma SpacesPlain(s: string)
    requires Spaces(s)
    ensures '#' !in s && NUL !in s && '=' !in s
  {
  }

  /** `rest` starts with a comment, or is nothing. */
  predicate Comment(rest: string) { rest == [] || rest[0] == '#' }

  lemma CutComment(body: string, rest: string)
    requires '#' !in body && NUL !in body && Comment(rest)
    ensures Before(Before(body + rest, NUL), '#') == body
  {
    var line := body + rest;
    var s := Before(line, NUL);
    assert forall i :: 0 <= i < |body| ==> line[i] == body[i];
    assert |s| >= |body|;
    assert s[..|body|] == body;
    if |s| > |body| {
      assert s[|body|] == rest[0];
    }
    FindAt(s, '#', |body|);
  }

  /** A line sets its key to its value: case of the key, white space around key and value, and a comment do not matter. */
  lemma LoadsLine(c: seq<Entry>, a: string, key: string, b: string, x: string, value: string, d: string, rest: string)
    requires Spaces(a) && Spaces(b) && Spaces(x) && Spaces(d) && Comment(rest)
    requires Trimmed(key) && key != [] && Trimmed(value) && '#' !in key + value && NUL !in key + value && '=' !in key
    ensures LoadLine(c, a + key + b + "=" + (x + value + d) + rest) == Put(c, LowerAll(key), value)
  {
    var left, right := a + key + b, x + value + d;
    SpacesPlain(a);
    SpacesPlain(b);
    SpacesPlain(x);
    SpacesPlain(d);
    var body := left + "=" + right;
    assert '#' !in left && NUL !in left && '=' !in left && '#' !in right && NUL !in right;
    CutComment(body, rest);
    assert body[..|left|] == left && body[|left| + 1..] == right;
    FindAt(body, '=', |left|);
    TrimAround(a, key, b);
    TrimAround(x, value, d);
  }

  /** So it does in a text: the line ends with its line end and is not longer than 256 characters. */
  lemma LoadsText(c: seq<Entry>, line: string, more: string, key: string, value: string)
    requires 0 < |line| <= MAX_LINE && line[|line| - 1] == '\n' && '\n' !in line[..|line| - 1]
    requires LoadLine(c, line) == Put(c, key, value)
    ensures LoadText(c, line + more) == LoadText(Put(c, key, value), more)
  {
    var t := line + more;
    assert t[..|line| - 1] == line[..|line| - 1] && t[|line| - 1] == '\n';
    FindAt(t, '\n', |line| - 1);
    assert Chunk(t) == |line| && t[..|line|] == line && t[|line|..] == more;
  }

  /** A new key goes to the end. */
  lemma SetNew(c: seq<Entry>, e: Entry, value: string)
    requires EntryOk(e) && Index(c, e.key) == |c| && Trim(value) == e.value
    ensures Set(c, e.key, value) == c + [e]
  {
    NormKeyId(e.key);
  }

  lemma RestTrims(value: string, rest: string)
    requires Trimmed(value) && Plain(value) && (rest == value || rest == value + "\n")
    ensures Trim(rest) == value && '#' !in rest && NUL !in rest
  {
    TrimId(value);
  }

  /** A line that was saved adds its entry at the end, with or without its line end. */
  lemma LoadSavedLine(c: seq<Entry>, e: Entry, rest: string, line: string)
    requires EntryOk(e) && FitsLine(e) && Index(c, e.key) == |c| && (rest == e.value || rest == e.value + "\n")
    requires line == e.key + "=" + rest
    ensures LoadLine(c, line) == c + [e]
  {
    RestTrims(e.value, rest);
    LineSplits(e.key, rest, line);
    SetNew(c, e, rest);
  }

  lemma LoneNewline(c: seq<Entry>, rest: string)
    ensures LoadText(c, "\n" + rest) == LoadText(c, rest)
  {
    var t := "\n" + rest;
    FindAt(t, '\n', 0);
    assert Chunk(t) == 1 && t[1..] == rest;
    var line := t[..1];
    assert line == "\n";
    BeforeNothing(line, NUL);
    BeforeNothing(line, '#');
    FindAt(line, '=', 1);
    assert LoadLine(c, line) == c;
  }

  /** How fgets cuts a text that starts with a line of `body`. */
  lemma FirstChunk(body: string, rest: string, t: string)
    requires t == body + "\n" + rest && '\n' !in body && |body| <= MAX_LINE
    ensures Chunk(t) == if |body| < MAX_LINE then |body| + 1 else |body|
    ensures t[..|body|] == body && t[|body|..] == "\n" + rest
    ensures t[..|body| + 1] == body + "\n" && t[|body| + 1..] == rest
  {
    assert t[..|body|] == body;
    FindAt(t, '\n', |body|);
  }

  lemma LoadSavedEntry(c: seq<Entry>, e: Entry, rest: string)
    requires EntryOk(e) && FitsLine(e) && Index(c, e.key) == |c|
    ensures LoadText(c, Line(e) + rest) == LoadText(c + [e], rest)
  {
    var body := e.key + "=" + e.value;
    var t := Line(e) + rest;
    FirstChunk(body, rest, t);
    if |body| < MAX_LINE {
      assert body + "\n" == e.key + "=" + (e.value + "\n");
      LoadSavedLine(c, e, e.value + "\n", body + "\n");
    } else {
      LoadSavedLine(c, e, e.value, body);
      LoneNewline(c + [e], rest);
    }
  }

  lemma NextIsNew(c: seq<Entry>, i: nat)
    requires Ok(c) && i < |c|
    ensures EntryOk(c[i]) && Index(c[..i], c[i].key) == i
    ensures c[..i] + [c[i]] == c[..i + 1] && c[i..][0] == c[i] && c[i..][1..] == c[i + 1..]
  {
  }

  lemma {:induction false} LoadSaved(c: seq<Entry>, i: nat)
    requires Ok(c) && Loadable(c) && i <= |c|
    ensures LoadText(c[..i], SaveText(c[i..])) == c
    decreases |c| - i
  {
    if i == |c| {
      assert c[..i] == c && c[i..] == [];
    } else {
      NextIsNew(c, i);
      LoadSavedEntry(c[..i], c[i], SaveText(c[i + 1..]));
      LoadSaved(c, i + 1);
    }
  }

  /** Loading what was saved gives the list back if and only if every entry fits on a line. */
  lemma SaveLoadIff(c: seq<Entry>)
    requires Ok(c)
    ensures LoadText([], SaveText(c)) == c <==> Loadable(c)
  {
    LoadFits([], SaveText(c));
    if Loadable(c) {
      assert c[..0] == [] && c[0..] == c;
      LoadSaved(c, 0);
    }
  }

  /** For every text: loading it, saving and loading again changes nothing, neither keys nor values nor order. */
  lemma LoadSaveLoad(t: string)
    ensures LoadText([], SaveText(LoadText([], t))) == LoadText([], t)
  {
    LoadFits([], t);
    SaveLoadIff(LoadText([], t));
  }

  /** A value with a '#' can be set, but no saved file keeps it. */
  lemma CommentedValueLost(c: seq<Entry>, i: nat)
    requires Ok(c) && i < |c| && '#' in c[i].value
    ensures LoadText([], SaveText(c)) != c
  {
    assert !FitsLine(c[i]);
    SaveLoadIff(c);
  }
}
