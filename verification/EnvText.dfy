/** The environment file format: `KEY=value` lines and `KEY<<DELIMITER` blocks; and the path file format. */
module EnvText {
  import opened Text

  type Bindings = seq<(string, string)>

  /** Later bindings win. */
  function ToMap(bs: Bindings): map<string, string> {
    if bs == [] then map[] else ToMap(bs[..|bs| - 1])[bs[|bs| - 1].0 := bs[|bs| - 1].1]
  }

  lemma {:induction false} ToMapConcat(a: Bindings, b: Bindings)
    ensures ToMap(a + b) == ToMap(a) + ToMap(b)
  {
    if b == [] {
      assert a + b == a;
    } else {
      var n := |b| - 1;
      assert (a + b)[..|a + b| - 1] == a + b[..n];
      ToMapConcat(a, b[..n]);
    }
  }

  lemma {:induction false} ToMapKeys(bs: Bindings, k: string)
    ensures k in ToMap(bs) <==> exists i | 0 <= i < |bs| :: bs[i].0 == k
  {
    if bs != [] {
      ToMapKeys(bs[..|bs| - 1], k);
    }
  }

  // ---- what a list of lines binds ----

  /** Key and delimiter of a line that opens a block. */
  function BlockHead(line: string): (r: Option<(string, string)>)
    ensures r.Some? ==> r.value.0 != "" && r.value.1 != "" && line == r.value.0 + "<<" + r.value.1
  {
    match Index(line, "<<")
    case None => None
    case Some(i) => if i > 0 && line[i + 2..] != "" then Some((line[..i], line[i + 2..])) else None
  }

  function Simple(line: string): (r: Bindings)
    ensures r == [] || (|r| == 1 && r[0].0 != "" && line == r[0].0 + "=" + r[0].1)
  {
    match Index(line, "=")
    case None => []
    case Some(i) => if i > 0 then [(line[..i], line[i + 1..])] else []
  }

  /** The number of lines in front of the delimiter; all of them if it does not come. */
  function BodyLen(lines: seq<string>, delim: string): (n: nat)
    ensures n <= |lines| && delim !in lines[..n] && (n < |lines| ==> lines[n] == delim)
  {
    if lines == [] || lines[0] == delim then 0 else 1 + BodyLen(lines[1..], delim)
  }

  lemma BodyLenUnique(lines: seq<string>, delim: string, n: nat)
    requires n <= |lines| && delim !in lines[..n] && (n < |lines| ==> lines[n] == delim)
    ensures BodyLen(lines, delim) == n
  {
  }

  /** Lines taken up by the first entry: a block takes its head, its body and its delimiter if there is one. */
  function EntryLen(lines: seq<string>): (n: nat)
    requires lines != []
    ensures 1 <= n <= |lines|
  {
    match BlockHead(lines[0])
    case None => 1
    case Some((_, delim)) =>
      var n := BodyLen(lines[1..], delim);
      if n < |lines| - 1 then n + 2 else n + 1
  }

  function EntryBinds(lines: seq<string>): Bindings
    requires lines != []
  {
    match BlockHead(lines[0])
    case None => Simple(lines[0])
    case Some((key, delim)) => [(key, Unlines(lines[1..1 + BodyLen(lines[1..], delim)]))]
  }

  function Binds(lines: seq<string>): Bindings
    decreases |lines|
  {
    if lines == [] then [] else EntryBinds(lines) + Binds(lines[EntryLen(lines)..])
  }

  /** Every block that is opened is closed by its delimiter. */
  predicate Closed(lines: seq<string>)
    decreases |lines|
  {
    lines == [] ||
    (&& (BlockHead(lines[0]).Some? ==> BlockHead(lines[0]).value.1 in lines[1..])
     && Closed(lines[EntryLen(lines)..]))
  }

  function ParseEnv(data: string): map<string, string> {
    ToMap(Binds(Lines(data)))
  }

  // ---- the parsing loop ----

  lemma {:induction false} UnlinesSnoc(ls: seq<string>, l: string)
    ensures Unlines(ls + [l]) == Unlines(ls) + l + "\n"
  {
    if ls == [] {
      assert ls + [l] == [l];
    } else {
      assert (ls + [l])[1..] == ls[1..] + [l];
      UnlinesSnoc(ls[1..], l);
    }
  }

  /** The body of a block, up to and over its delimiter. */
  method ReadBody(lines: seq<string>, i0: nat, delim: string) returns (value: string, i: nat)
    requires i0 <= |lines|
    ensures var n := BodyLen(lines[i0..], delim);
            value == Unlines(lines[i0..][..n]) && i == if n < |lines| - i0 then i0 + n + 1 else i0 + n
  {
    i, value := i0, "";
    while i < |lines|
      invariant i0 <= i <= |lines|
      invariant delim !in lines[i0..i]
      invariant value == Unlines(lines[i0..i])
    {
      if lines[i] == delim {
        BodyLenUnique(lines[i0..], delim, i - i0);
        assert lines[i0..][..i - i0] == lines[i0..i];
        i := i + 1;
        return;
      }
      assert lines[i0..i + 1] == lines[i0..i] + [lines[i]];
      UnlinesSnoc(lines[i0..i], lines[i]);
      value := value + lines[i] + "\n";
      i := i + 1;
    }
    assert lines[i0..][..i - i0] == lines[i0..i];
    BodyLenUnique(lines[i0..], delim, i - i0);
  }

  /** One turn of the parsing loop: the binding found at line `i`, if any, and the line to go on from. */
  method ParseEntry(lines: seq<string>, i: nat) returns (kv: Bindings, j: nat)
    requires i < |lines|
    ensures j == i + EntryLen(lines[i..]) && kv == EntryBinds(lines[i..])
  {
    hide BodyLen, Unlines;
    if lines[i] == "" {
      EmptyLine(lines, i);
      return [], i + 1;
    }
    var head := BlockHead(lines[i]);
    if head.Some? {
      var value;
      value, j := ReadBody(lines, i + 1, head.value.1);
      BlockEntry(lines, i, head.value.0, head.value.1);
      kv := [(head.value.0, value)];
    } else {
      kv, j := Simple(lines[i]), i + 1;
    }
  }

  /** What the lines from `i` on add to the map. */
  function Rest(lines: seq<string>, i: nat): map<string, string> {
    if i <= |lines| then ToMap(Binds(lines[i..])) else map[]
  }

  method ParseEnvFile(data: string) returns (result: map<string, string>)
    ensures result == ParseEnv(data)
  {
    hide EntryLen, EntryBinds, Rest, Binds, Lines, ToMap;
    result := map[];
    if |data| == 0 {
      EmptyData(data);
      return;
    }
    var lines := Lines(data);
    var i := 0;
    RestAll(lines);
    while i < |lines|
      invariant 0 <= i <= |lines|
      invariant ParseEnv(data) == result + Rest(lines, i)
    {
      var kv, j := ParseEntry(lines, i);
      RestStep(lines, i);
      if kv != [] {
        result := result[kv[0].0 := kv[0].1];
      }
      i := j;
    }
  }

  lemma RestAll(lines: seq<string>)
    ensures Rest(lines, 0) == ToMap(Binds(lines)) && Rest(lines, |lines|) == map[]
  {
    assert lines[0..] == lines && lines[|lines|..] == [];
  }

  lemma RestStep(lines: seq<string>, i: nat)
    requires i < |lines|
    ensures var kv, j := EntryBinds(lines[i..]), i + EntryLen(lines[i..]);
            && |kv| <= 1 && j <= |lines|
            && Rest(lines, i) == (if kv == [] then Rest(lines, j) else map[kv[0].0 := kv[0].1] + Rest(lines, j))
  {
    var kv, n := EntryBinds(lines[i..]), EntryLen(lines[i..]);
    assert lines[i..][n..] == lines[i + n..];
    ToMapConcat(kv, Binds(lines[i + n..]));
    if kv != [] { assert kv[..0] == []; }
  }

  lemma EmptyData(data: string)
    requires |data| == 0
    ensures ParseEnv(data) == map[]
  {
    assert Lines(data) == [""];
    assert EntryBinds([""]) == [] && EntryLen([""]) == 1;
    assert [""][1..] == [];
  }

  lemma EmptyLine(lines: seq<string>, i: nat)
    requires i < |lines| && lines[i] == ""
    ensures EntryLen(lines[i..]) == 1 && EntryBinds(lines[i..]) == []
  {
  }

  lemma BlockEntry(lines: seq<string>, i: nat, key: string, delim: string)
    requires i < |lines| && BlockHead(lines[i]) == Some((key, delim))
    ensures var body := lines[i + 1..];
            var n := BodyLen(body, delim);
            && EntryLen(lines[i..]) == (if n < |body| then n + 2 else n + 1)
            && EntryBinds(lines[i..]) == [(key, Unlines(body[..n]))]
  {
    var body := lines[i + 1..];
    var n := BodyLen(body, delim);
    assert lines[i..][1..] == body && lines[i..][1..1 + n] == body[..n];
  }

  // ---- the path file ----

  function NonEmpty(ls: seq<string>): seq<string> {
    if ls == [] then [] else (if ls[0] == "" then [] else [ls[0]]) + NonEmpty(ls[1..])
  }

  function ParsePath(data: string): seq<string> {
    NonEmpty(Lines(data))
  }

  method ParsePathFile(data: string) returns (paths: seq<string>)
    ensures paths == ParsePath(data)
  {
    paths := [];
    if |data| == 0 {
      assert Lines(data) == [""];
      return;
    }
    var lines := Lines(data);
    assert lines[0..] == lines;
    for i := 0 to |lines|
      invariant ParsePath(data) == paths + NonEmpty(lines[i..])
    {
      assert lines[i..][1..] == lines[i + 1..];
      if lines[i] != "" {
        paths := paths + [lines[i]];
      }
    }
  }

  /** Path entries are read back line by line. */
  lemma PathsRoundTrip(ps: seq<string>)
    requires forall p | p in ps :: p != "" && NoNewline(p)
    ensures ParsePath(Unlines(ps)) == ps
  {
    hide Lines, Unlines;
    LinesOfUnlines(ps, "");
    assert Unlines(ps) + "" == Unlines(ps);
    EmptyLines();
    NonEmptyConcat(ps, [""]);
    AllNonEmpty(ps);
  }

  lemma EmptyLines()
    ensures Lines("") == [""] && NonEmpty([""]) == []
  {
    assert [""][1..] == [];
  }

  lemma {:induction false} AllNonEmpty(ps: seq<string>)
    requires forall p | p in ps :: p != ""
    ensures NonEmpty(ps) == ps
  {
    if ps != [] {
      assert ps[0] in ps && forall p | p in ps[1..] :: p in ps;
      AllNonEmpty(ps[1..]);
    }
  }

  // ---- any single line ----

  predicate FirstAt(line: string, i: nat, pat: string) {
    HasAt(line, i, pat) && forall k: nat | k < i :: !HasAt(line, k, pat)
  }

  lemma OneLine(line: string)
    requires NoNewline(line)
    ensures ParseEnv(line) == ToMap(EntryBinds([line]))
  {
    assert Lines(line) == [line];
    var n := EntryLen([line]);
    assert [line][n..] == [];
    assert Binds([line]) == EntryBinds([line]) + [];
  }

  /** A line with `<<` opens a block if something stands on both sides of the first one; with nothing behind it the block
      is empty. */
  lemma LineOpens(line: string, i: nat)
    requires NoNewline(line) && FirstAt(line, i, "<<") && 0 < i && i + 2 < |line|
    ensures ParseEnv(line) == map[line[..i] := ""]
  {
    OneLine(line);
    IndexUnique(line, "<<", i);
    assert BlockHead(line) == Some((line[..i], line[i + 2..]));
    hide Index;
    var b := EntryBinds([line]);
    assert [line][1..] == [];
    assert b == [(line[..i], "")] && b[..0] == [];
  }

  lemma NoHead(line: string)
    requires forall i: nat | FirstAt(line, i, "<<") :: i == 0 || i + 2 == |line|
    ensures BlockHead(line) == None
  {
    var r := Index(line, "<<");
    if r.Some? { assert FirstAt(line, r.value, "<<"); }
  }

  /** Any other line binds what stands in front of its first `=` to what stands behind it, provided something stands in
      front of it; else nothing. */
  lemma LineBinds(line: string)
    requires NoNewline(line) && forall i: nat | FirstAt(line, i, "<<") :: i == 0 || i + 2 == |line|
    ensures forall j: nat | FirstAt(line, j, "=") && j > 0 :: ParseEnv(line) == map[line[..j] := line[j + 1..]]
    ensures FirstAt(line, 0, "=") || (forall j: nat :: !HasAt(line, j, "=")) ==> ParseEnv(line) == map[]
  {
    OneLine(line);
    NoHead(line);
    hide ParseEnv, BlockHead, NoNewline;
    var b := EntryBinds([line]);
    assert b == Simple(line);
    forall j: nat | FirstAt(line, j, "=") ensures Index(line, "=") == Some(j) { IndexUnique(line, "=", j); }
    assert b != [] ==> b[..0] == [];
  }

  lemma {:induction false} NonEmptyConcat(a: seq<string>, b: seq<string>)
    ensures NonEmpty(a + b) == NonEmpty(a) + NonEmpty(b)
  {
    if a == [] {
      assert a + b == b;
    } else {
      assert (a + b)[1..] == a[1..] + b;
      NonEmptyConcat(a[1..], b);
    }
  }
}
