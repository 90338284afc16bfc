/** The conflict-copy name table: each input name with the base name it
    parses to, or None where the expected output is the empty string. */
module ConflictNameTable {
  import opened Wrappers
  import opened Paths
  import opened ConflictName

  /** A name built from a dir-prefix, a stem and an extension parses as
      the stem's rightmost marker dictates. */
  lemma BaseNameOfParts(d: string, st: string, e: string)
    requires WellSplit(d, st, e)
    ensures var m := LastMarker(st);
      (m < 0 || m + |Marker| == |st| ==> ConflictFileBaseName(d + st + e) == None)
      && (0 <= m && m + |Marker| < |st| && d + st[..m] + e != "" ==>
            ConflictFileBaseName(d + st + e) == Some(d + st[..m] + e))
  {
    SplitOfParts(d, st, e);
  }

  /** The rows, in order: an input name and the base name it must parse
      to, None standing for the empty output. */
  const Table: seq<(Path, Option<Path>)> := [
    ("a/b/foo", None),
    ("a/b/foo.txt", None),
    ("a/b/foo_conflict", None),
    ("a/b/foo_conflict.txt", None),
    ("a/b/foo_conflict-123.txt", Some("a/b/foo.txt")),
    ("a/b/foo_conflict_123.txt", Some("a/b/foo.txt")),
    ("a/b/foo_conflict_foo-123.txt", Some("a/b/foo.txt")),
    ("a/b/foo_conflict-123", Some("a/b/foo")),
    ("a/b/foo_conflict_123", Some("a/b/foo")),
    ("a/b/foo_conflict_foo-123", Some("a/b/foo")),
    ("a/b/foo_conflict-123_conflict-456.txt", Some("a/b/foo_conflict-123.txt")),
    ("a/b/foo_conflict_123_conflict_456.txt", Some("a/b/foo_conflict_123.txt")),
    ("a/b/foo_conflict_foo-123_conflict_bar-456.txt", Some("a/b/foo_conflict_foo-123.txt"))
  ]

  /** Every row of the table holds. */
  lemma TableRow(i: nat)
    requires i < |Table|
    ensures ConflictFileBaseName(Table[i].0) == Table[i].1
  {
    if i == 0 {
      PlainName();
    } else if i == 1 {
      PlainNameWithExtension();
    } else if i == 2 {
      BareMarker();
    } else if i == 3 {
      BareMarkerWithExtension();
    } else if i == 4 {
      DashTail();
    } else if i == 5 {
      UnderscoreTail();
    } else if i == 6 {
      ActorDashTail();
    } else if i == 7 {
      DashTailNoExtension();
    } else if i == 8 {
      UnderscoreTailNoExtension();
    } else if i == 9 {
      ActorDashTailNoExtension();
    } else if i == 10 {
      DoubleDashTails();
    } else if i == 11 {
      DoubleUnderscoreTails();
    } else {
      DoubleActorDashTails();
    }
  }

  /** Row 0: a name without a marker has no base. */
  lemma PlainName()
    ensures ConflictFileBaseName(Table[0].0) == Table[0].1
  {
    ShortIsMarkerFree("foo");
    assert "a/b/foo" == "a/b/" + "foo";
    NoBaseWithoutMarker("a/b/", "foo", "", Table[0].0);
  }

  /** Row 1: nor has one with an extension. */
  lemma PlainNameWithExtension()
    ensures ConflictFileBaseName(Table[1].0) == Table[1].1
  {
    ShortIsMarkerFree("foo");
    assert "a/b/foo.txt" == "a/b/foo" + ".txt";
    assert "a/b/foo" == "a/b/" + "foo";
    NoBaseWithoutMarker("a/b/", "foo", ".txt", Table[1].0);
  }

  /** Row 2: a marker that ends the stem marks nothing. */
  lemma BareMarker()
    ensures ConflictFileBaseName(Table[2].0) == Table[2].1
  {
    assert "a/b/foo_conflict" == "a/b/foo" + "_conflict";
    assert "a/b/foo" == "a/b/" + "foo";
    NoBaseBareMarker("a/b/", "foo", "", Table[2].0);
  }

  /** Row 3: nor does one in front of an extension. */
  lemma BareMarkerWithExtension()
    ensures ConflictFileBaseName(Table[3].0) == Table[3].1
  {
    assert "a/b/foo_conflict.txt" == "a/b/foo_conflict" + ".txt";
    assert "a/b/foo_conflict" == "a/b/foo" + "_conflict";
    assert "a/b/foo" == "a/b/" + "foo";
    NoBaseBareMarker("a/b/", "foo", ".txt", Table[3].0);
  }

  /** Row 4: `-123` after the marker goes with it; the extension stays. */
  lemma DashTail()
    ensures ConflictFileBaseName(Table[4].0) == Table[4].1
  {
    assert "a/b/foo_conflict-123.txt" == "a/b/foo_conflict-123" + ".txt";
    assert "a/b/foo_conflict-123" == "a/b/foo_conflict" + "-123";
    assert "a/b/foo_conflict" == "a/b/foo" + "_conflict";
    assert "a/b/foo" == "a/b/" + "foo";
    assert "a/b/foo.txt" == "a/b/foo" + ".txt";
    Strips("a/b/", "foo", "-123", ".txt", Table[4].0, Table[4].1.value);
  }

  /** Row 5: so does `_123`. */
  lemma UnderscoreTail()
    ensures ConflictFileBaseName(Table[5].0) == Table[5].1
  {
    assert "a/b/foo_conflict_123.txt" == "a/b/foo_conflict_123" + ".txt";
    assert "a/b/foo_conflict_123" == "a/b/foo_conflict" + "_123";
    assert "a/b/foo_conflict" == "a/b/foo" + "_conflict";
    assert "a/b/foo" == "a/b/" + "foo";
    assert "a/b/foo.txt" == "a/b/foo" + ".txt";
    Strips("a/b/", "foo", "_123", ".txt", Table[5].0, Table[5].1.value);
  }

  /** Row 6: and `_foo-123`. */
  lemma ActorDashTail()
    ensures ConflictFileBaseName(Table[6].0) == Table[6].1
  {
    assert "a/b/foo_conflict_foo-123.txt" == "a/b/foo_conflict_foo-123" + ".txt";
    assert "a/b/foo_conflict_foo-123" == "a/b/foo_conflict" + "_foo-123";
    assert "a/b/foo_conflict" == "a/b/foo" + "_conflict";
    assert "a/b/foo" == "a/b/" + "foo";
    assert "a/b/foo.txt" == "a/b/foo" + ".txt";
    Strips("a/b/", "foo", "_foo-123", ".txt", Table[6].0, Table[6].1.value);
  }

  /** Row 7: the same tails on a name without an extension. */
  lemma DashTailNoExtension()
    ensures ConflictFileBaseName(Table[7].0) == Table[7].1
  {
    assert "a/b/foo_conflict-123" == "a/b/foo_conflict" + "-123";
    assert "a/b/foo_conflict" == "a/b/foo" + "_conflict";
    assert "a/b/foo" == "a/b/" + "foo";
    Strips("a/b/", "foo", "-123", "", Table[7].0, Table[7].1.value);
  }

  /** Row 8. */
  lemma UnderscoreTailNoExtension()
    ensures ConflictFileBaseName(Table[8].0) == Table[8].1
  {
    assert "a/b/foo_conflict_123" == "a/b/foo_conflict" + "_123";
    assert "a/b/foo_conflict" == "a/b/foo" + "_conflict";
    assert "a/b/foo" == "a/b/" + "foo";
    Strips("a/b/", "foo", "_123", "", Table[8].0, Table[8].1.value);
  }

  /** Row 9. */
  lemma ActorDashTailNoExtension()
    ensures ConflictFileBaseName(Table[9].0) == Table[9].1
  {
    assert "a/b/foo_conflict_foo-123" == "a/b/foo_conflict" + "_foo-123";
    assert "a/b/foo_conflict" == "a/b/foo" + "_conflict";
    assert "a/b/foo" == "a/b/" + "foo";
    Strips("a/b/", "foo", "_foo-123", "", Table[9].0, Table[9].1.value);
  }

  /** Row 10: a copy of a copy loses only its last marker. */
  lemma DoubleDashTails()
    ensures ConflictFileBaseName(Table[10].0) == Table[10].1
  {
    assert "a/b/foo_conflict-123_conflict-456.txt" == "a/b/foo_conflict-123_conflict-456" + ".txt";
    assert "a/b/foo_conflict-123_conflict-456" == "a/b/foo_conflict-123_conflict" + "-456";
    assert "a/b/foo_conflict-123_conflict" == "a/b/foo_conflict-123" + "_conflict";
    assert "a/b/foo_conflict-123" == "a/b/" + "foo_conflict-123";
    assert "a/b/foo_conflict-123.txt" == "a/b/foo_conflict-123" + ".txt";
    Strips("a/b/", "foo_conflict-123", "-456", ".txt", Table[10].0, Table[10].1.value);
  }

  /** Row 11. */
  lemma DoubleUnderscoreTails()
    ensures ConflictFileBaseName(Table[11].0) == Table[11].1
  {
    assert "a/b/foo_conflict_123_conflict_456.txt" == "a/b/foo_conflict_123_conflict_456" + ".txt";
    assert "a/b/foo_conflict_123_conflict_456" == "a/b/foo_conflict_123_conflict" + "_456";
    assert "a/b/foo_conflict_123_conflict" == "a/b/foo_conflict_123" + "_conflict";
    assert "a/b/foo_conflict_123" == "a/b/" + "foo_conflict_123";
    assert "a/b/foo_conflict_123.txt" == "a/b/foo_conflict_123" + ".txt";
    Strips("a/b/", "foo_conflict_123", "_456", ".txt", Table[11].0, Table[11].1.value);
  }

  /** Row 12. */
  lemma DoubleActorDashTails()
    ensures ConflictFileBaseName(Table[12].0) == Table[12].1
  {
    assert "a/b/foo_conflict_foo-123_conflict_bar-456.txt" == "a/b/foo_conflict_foo-123_conflict_bar-456" + ".txt";
    assert "a/b/foo_conflict_foo-123_conflict_bar-456" == "a/b/foo_conflict_foo-123_conflict" + "_bar-456";
    assert "a/b/foo_conflict_foo-123_conflict" == "a/b/foo_conflict_foo-123" + "_conflict";
    assert "a/b/foo_conflict_foo-123" == "a/b/" + "foo_conflict_foo-123";
    assert "a/b/foo_conflict_foo-123.txt" == "a/b/foo_conflict_foo-123" + ".txt";
    Strips("a/b/", "foo_conflict_foo-123", "_bar-456", ".txt", Table[12].0, Table[12].1.value);
  }

  /** A row whose stem has no marker. */
  lemma NoBaseWithoutMarker(d: string, st: string, e: string, input: Path)
    requires input == d + st + e
    requires WellSplit(d, st, e)
    requires MarkerFree(st)
    ensures ConflictFileBaseName(input) == None
  {
    BaseNameOfParts(d, st, e);
    LastMarkerIs(st, -1);
  }

  /** A row whose stem ends with its only marker. */
  lemma NoBaseBareMarker(d: string, x: string, e: string, input: Path)
    requires input == d + x + Marker + e
    requires WellSplit(d, x + Marker, e)
    ensures ConflictFileBaseName(input) == None
  {
    assert input == d + (x + Marker) + e;
    BaseNameOfParts(d, x + Marker, e);
    ShortIsMarkerFree("");
    LastMarkerOfAppended(x, "");
    assert x + Marker + "" == x + Marker;
  }

  /** A row whose marker tail is shorter than a marker. */
  lemma Strips(d: string, x: string, rest: string, e: string, input: Path, output: Path)
    requires input == d + x + Marker + rest + e
    requires output == d + x + e && output != ""
    requires WellSplit(d, x + Marker + rest, e)
    requires 0 < |rest| < |Marker|
    ensures ConflictFileBaseName(input) == Some(output)
  {
    assert input == d + (x + Marker + rest) + e;
    ShortIsMarkerFree(rest);
    BaseNameOfParts(d, x + Marker + rest, e);
    LastMarkerOfAppended(x, rest);
    assert (x + Marker + rest)[..|x|] == x;
  }
}
