/** Text files as Python opens them. */
module TextFiles {

  /** `read_text`: universal newlines. */
  function ReadText(bytes: string): string {
    if bytes == "" then ""
    else if bytes[0] == '\r' then "\n" + ReadText(if |bytes| > 1 && bytes[1] == '\n' then bytes[2..] else bytes[1..])
    else [bytes[0]] + ReadText(bytes[1..])
  }

  /** Reading goes through a text piece by piece, unless a cut comes between a carriage return and its newline;
      and of a carriage return, a newline or both together it makes one newline, of anything else itself. */
  lemma {:induction false} ReadTextConcat(a: string, b: string)
    requires a == "" || b == "" || a[|a| - 1] != '\r' || b[0] != '\n'
    ensures ReadText(a + b) == ReadText(a) + ReadText(b)
    decreases |a|
  {
    if a == "" {
      assert a + b == b;
    } else if a[0] == '\r' && |a| > 1 && a[1] == '\n' {
      ReadTextConcat(a[2..], b);
      assert (a + b)[2..] == a[2..] + b;
    } else {
      ReadTextConcat(a[1..], b);
      assert (a + b)[1..] == a[1..] + b;
    }
  }

  lemma ReadTextOfNewlines()
    ensures ReadText("\r\n") == ReadText("\r") == ReadText("\n") == "\n"
    ensures forall c: char :: c != '\r' ==> ReadText([c]) == [c]
  {
    assert "\r\n"[2..] == "" && "\r"[1..] == "" && "\n"[1..] == "";
    forall c: char | c != '\r' ensures ReadText([c]) == [c] { assert [c][1..] == ""; }
  }

  /** Only a text with a carriage return is changed by reading, and what was read once no more. */
  lemma {:induction false} ReadTextIsIdentityIff(bytes: string)
    ensures ReadText(bytes) == bytes <==> '\r' !in bytes
    ensures '\r' !in ReadText(bytes) && |ReadText(bytes)| <= |bytes|
    decreases |bytes|
  {
    if bytes != "" {
      assert bytes == [bytes[0]] + bytes[1..];
      if bytes[0] == '\r' {
        ReadTextIsIdentityIff(if |bytes| > 1 && bytes[1] == '\n' then bytes[2..] else bytes[1..]);
        assert ReadText(bytes)[0] == '\n';
      } else {
        ReadTextIsIdentityIff(bytes[1..]);
        assert ReadText(bytes)[1..] == ReadText(bytes[1..]);
      }
    }
  }
}
