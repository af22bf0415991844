/** The text file of pids: one decimal number per line, appended to and parsed back. */
module PidFile {
  import opened Digits

  function Digit(n: nat): char
    requires n < 10
  {
    "0123456789"[n]
  }

  /** The decimal text that `f"{pid}"` and `"%ld"` print. */
  function Decimal(n: nat): (text: string)
    ensures text != [] && forall i :: 0 <= i < |text| ==> IsDigit(text[i])
  {
    if n < 10 then [Digit(n)] else Decimal(n / 10) + [Digit(n % 10)]
  }

  predicate AllDigits(line: string) {
    line != [] && forall i :: 0 <= i < |line| ==> IsDigit(line[i])
  }

  /** `int(line)` for a line of digits. */
  function Number(digits: string): nat {
    if digits == [] then 0
    else 10 * Number(digits[..|digits| - 1]) + DigitValue(digits[|digits| - 1])
  }

  /** `splitlines` on text whose only line ends are newlines; `current` is the line being read. */
  function Lines(text: string, current: string): seq<string> {
    if text == [] then if current == [] then [] else [current]
    else if text[0] == '\n' then [current] + Lines(text[1..], [])
    else Lines(text[1..], current + [text[0]])
  }

  predicate WholeLines(text: string) {
    text == [] || text[|text| - 1] == '\n'
  }

  /** The pids a list of lines records: those above 1 among the lines that are numbers. */
  function PidsOf(lines: seq<string>): set<nat> {
    if lines == [] then {}
    else (if AllDigits(lines[0]) && Number(lines[0]) > 1 then {Number(lines[0])} else {}) + PidsOf(lines[1..])
  }

  function Recorded(text: string): set<nat> {
    PidsOf(Lines(text, []))
  }

  lemma {:induction false} PidsOfSnoc(lines: seq<string>, line: string)
    ensures PidsOf(lines + [line]) ==
            PidsOf(lines) + (if AllDigits(line) && Number(line) > 1 then {Number(line)} else {})
  {
    if lines != [] {
      assert (lines + [line])[1..] == lines[1..] + [line];
      PidsOfSnoc(lines[1..], line);
    } else {
      assert [line][1..] == [];
    }
  }

  /** What a list of lines records, spelled out. */
  lemma {:induction false} RecordsIff(lines: seq<string>, pid: nat)
    ensures pid in PidsOf(lines) <==>
              && pid > 1
              && exists i :: 0 <= i < |lines| && lines[i] != [] && Number(lines[i]) == pid &&
                   forall k :: 0 <= k < |lines[i]| ==> '0' <= lines[i][k] <= '9'
  {
    if lines != [] {
      RecordsIff(lines[1..], pid);
      assert forall i :: 0 < i < |lines| ==> lines[i] == lines[1..][i - 1];
      assert forall i :: 0 <= i < |lines[1..]| ==> lines[1..][i] == lines[i + 1];
    }
  }

  /** The loop of `recorded_pids` over the lines of the file. */
  method ReadPids(text: string) returns (found: set<nat>)
    ensures found == Recorded(text)
  {
    found := {};
    var lines := Lines(text, []);
    for i := 0 to |lines|
      invariant found == PidsOf(lines[..i])
    {
      PidsOfSnoc(lines[..i], lines[i]);
      assert lines[..i + 1] == lines[..i] + [lines[i]];
      if AllDigits(lines[i]) && Number(lines[i]) > 1 {
        found := found + {Number(lines[i])};
      }
    }
    assert lines[..|lines|] == lines;
  }

  lemma {:induction false} NumberOfDecimal(n: nat)
    ensures Number(Decimal(n)) == n
  {
    if n >= 10 {
      NumberOfDecimal(n / 10);
      assert Decimal(n)[..|Decimal(n)| - 1] == Decimal(n / 10);
    }
  }

  lemma {:induction false} LinesOfDigits(digits: string, current: string)
    requires AllDigits(digits)
    ensures Lines(digits + "\n", current) == [current + digits]
  {
    assert IsDigit(digits[0]);
    if |digits| == 1 {
      assert (digits + "\n")[1..] == "\n";
      assert Lines("\n", current + digits) == [current + digits] + Lines("\n"[1..], []);
      assert current + [digits[0]] == current + digits;
    } else {
      assert (digits + "\n")[1..] == digits[1..] + "\n";
      LinesOfDigits(digits[1..], current + [digits[0]]);
      assert current + [digits[0]] + digits[1..] == current + digits;
    }
  }

  /** A text of whole lines followed by more text has the lines of both. */
  lemma {:induction false} LinesAppend(text: string, more: string, current: string)
    requires text != [] && text[|text| - 1] == '\n'
    ensures Lines(text + more, current) == Lines(text, current) + Lines(more, [])
  {
    assert (text + more)[1..] == text[1..] + more;
    if |text| == 1 {
      assert text[1..] + more == more;
    } else {
      LinesAppend(text[1..], more, if text[0] == '\n' then [] else current + [text[0]]);
    }
  }

  lemma {:induction false} PidsOfConcat(a: seq<string>, b: seq<string>)
    ensures PidsOf(a + b) == PidsOf(a) + PidsOf(b)
  {
    if a == [] {
      assert a + b == b;
    } else {
      assert (a + b)[1..] == a[1..] + b;
      PidsOfConcat(a[1..], b);
    }
  }

  lemma LineAppends(text: string, digits: string)
    requires WholeLines(text) && AllDigits(digits) && Number(digits) > 1
    ensures WholeLines(text + digits + "\n")
    ensures Recorded(text + digits + "\n") == Recorded(text) + {Number(digits)}
  {
    OneLine(digits);
    assert text + digits + "\n" == text + (digits + "\n");
    if text == [] {
      assert text + digits + "\n" == digits + "\n";
    } else {
      LinesAppend(text, digits + "\n", []);
      PidsOfConcat(Lines(text, []), [digits]);
    }
  }

  lemma OneLine(digits: string)
    requires AllDigits(digits) && Number(digits) > 1
    ensures Lines(digits + "\n", []) == [digits] && PidsOf([digits]) == {Number(digits)}
  {
    LinesOfDigits(digits, []);
    assert [] + digits == digits;
    assert [digits][1..] == [];
  }

  /** Appending a pid's line records that pid and keeps the others. */
  lemma RecordAppends(text: string, pid: nat)
    requires WholeLines(text) && pid > 1
    ensures WholeLines(text + Decimal(pid) + "\n")
    ensures Recorded(text + Decimal(pid) + "\n") == Recorded(text) + {pid}
  {
    NumberOfDecimal(pid);
    hide Decimal, Number, Recorded, WholeLines;
    LineAppends(text, Decimal(pid));
  }
}
