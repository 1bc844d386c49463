/** The on-disk list of authorized users: one decimal id per line, appended
    by `save_trusted_user` and read back at start-up by `load_trusted_users`.
    The file is modelled as the sequence of lines Python's iteration over a
    text file yields, each written line keeping its terminating newline. */
module TrustedStore {
  import opened Wrappers
  import opened PyStr

  /** `f"{user_id}"`: the decimal form, with a minus sign when negative. */
  function FormatId(id: int): string
  {
    if id < 0 then "-" + Decimal(-id) else Decimal(id)
  }

  /** The line `save_trusted_user` appends: `f"{user_id}\n"`. */
  function FormatLine(id: int): string
  {
    FormatId(id) + "\n"
  }

  /** One line as the generator in `load_trusted_users` sees it: kept, as
      `int(line.strip())`, only when the stripped line is all digits. */
  function ParseLine(line: string): (r: Option<nat>)
    ensures r.Some? <==> IsAsciiDigits(Strip(line))
  {
    var t := Strip(line);
    if IsAsciiDigits(t) then Some(DecimalValue(t)) else None
  }

  /** The set of ids the lines of a store file yield. */
  function ParseTrusted(lines: seq<string>): set<int>
  {
    if lines == [] then {}
    else
      var last := ParseLine(lines[|lines| - 1]);
      ParseTrusted(lines[..|lines| - 1]) + (if last.Some? then {last.value} else {})
  }

  /** `load_trusted_users`: a missing file gives the empty set. */
  function LoadTrusted(file: Option<seq<string>>): set<int>
  {
    match file
    case None => {}
    case Some(lines) => ParseTrusted(lines)
  }

  /** Line `k` of the file yields `id`. */
  predicate Yields(lines: seq<string>, k: int, id: int)
  {
    0 <= k < |lines| && ParseLine(lines[k]) == Some(id)
  }

  /** An id is loaded exactly when some line of the file parses to it:
      lines that are not all digits after stripping are ignored. */
  lemma {:induction false} ParseTrustedMembers(lines: seq<string>, id: int)
    ensures id in ParseTrusted(lines) <==> exists k :: Yields(lines, k, id)
  {
    if lines != [] {
      var n := |lines| - 1;
      var init := lines[..n];
      var last := ParseLine(lines[n]);
      assert ParseTrusted(lines) == ParseTrusted(init) + (if last.Some? then {last.value} else {});
      ParseTrustedMembers(init, id);
      if id in ParseTrusted(lines) {
        if id in ParseTrusted(init) {
          var k :| Yields(init, k, id);
          assert Yields(lines, k, id);
        } else {
          assert Yields(lines, n, id);
        }
      }
      if exists k :: Yields(lines, k, id) {
        var k :| Yields(lines, k, id);
        if k < n {
          assert Yields(init, k, id);
        } else {
          assert k == n;
          assert lines[k] == lines[n];
          assert last == Some(id);
        }
        assert id in ParseTrusted(lines);
      }
    }
  }

  /** Every id `ParseTrusted` returns is non-negative. */
  lemma {:induction false} ParseTrustedNonNegative(lines: seq<string>)
    ensures forall id | id in ParseTrusted(lines) :: id >= 0
  {
    if lines != [] {
      ParseTrustedNonNegative(lines[..|lines| - 1]);
    }
  }

  /** A kept line yields the id whose decimal form is the stripped line,
      whenever that line has no leading zero: `int(line.strip())` reads the
      number the line spells. */
  lemma ParseLineReadsDecimal(line: string)
    requires ParseLine(line).Some?
    requires Strip(line)[0] != '0' || |Strip(line)| == 1
    ensures FormatId(ParseLine(line).value) == Strip(line)
  {
    DecimalOfValue(Strip(line));
  }

  /** Which id any kept line yields: the stripped line is a run of '0's
      followed by the decimal form of that id. */
  lemma ParseLineValue(line: string)
    requires ParseLine(line).Some?
    ensures var t := Strip(line);
      exists z | 0 <= z < |t| :: AllZeros(t[..z]) && t[z..] == FormatId(ParseLine(line).value)
  {
    DigitsAreZerosThenDecimal(Strip(line));
  }

  /** `int(" 007\n".strip())` is 7. */
  lemma ParseLineZeroPadded()
    ensures ParseLine(" 007\n") == Some(7)
  {
    assert " " + "007" + "\n" == " 007\n";
    StripPadded(" ", "007", "\n");
    assert "007" == "0" + "07" && "07" == "0" + "7";
    DecimalValueLeadingZero("07");
    DecimalValueLeadingZero("7");
  }

  /** What `save_trusted_user` writes for a non-negative id reads back as
      that id; the line for a negative id is ignored (its leading minus sign
      is not a digit). */
  lemma FormatLineRoundTrip(id: int)
    ensures ParseLine(FormatLine(id)) == if id >= 0 then Some(id) else None
  {
    var f := FormatId(id);
    assert Trimmed(f);
    assert AllSpace("\n");
    assert [] + f + "\n" == FormatLine(id);
    StripPadded([], f, "\n");
    if id >= 0 {
      DecimalRoundTrip(id);
    } else {
      assert !IsDigit(f[0]);
    }
  }

  /** Appending one id's line to the file adds exactly that id to what a
      later start-up loads, or nothing when the id is negative. */
  lemma SaveThenLoad(lines: seq<string>, id: int)
    ensures ParseTrusted(lines + [FormatLine(id)]) ==
      ParseTrusted(lines) + (if id >= 0 then {id} else {})
  {
    var lines' := lines + [FormatLine(id)];
    assert lines'[..|lines'| - 1] == lines;
    FormatLineRoundTrip(id);
  }
}
