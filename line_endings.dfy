/** The line-ending clean-up post_edit applies to submitted text,
    `gsub!("\r\n", "\n")`: one left-to-right pass that turns every CR LF pair
    into a single LF and copies every other character. */
module LineEndings {
  import opened RubyText

  function Normalize(s: string): (r: string)
    ensures |r| <= |s|
    ensures '\r' !in s ==> r == s
  {
    if "\r\n" <= s then "\n" + Normalize(s[2..])
    else if s == [] then []
    else [s[0]] + Normalize(s[1..])
  }

  /** The opposite conversion: every LF becomes CR LF, as a browser submits
      the lines of a text area. */
  function ToCrlf(s: string): (r: string)
    ensures |r| >= |s|
    ensures r == [] || r[0] != '\n'
  {
    if s == [] then []
    else (if s[0] == '\n' then "\r\n" else [s[0]]) + ToCrlf(s[1..])
  }

  /** The first character of the normalised text. */
  lemma NormalizeHead(s: string)
    requires s != []
    ensures Normalize(s) != [] && Normalize(s)[0] == (if "\r\n" <= s then '\n' else s[0])
  {
  }

  /** Normalisation undoes the LF to CR LF conversion, for every text. */
  lemma {:induction false} NormalizeToCrlf(s: string)
    ensures Normalize(ToCrlf(s)) == s
  {
    if s != [] {
      var t := s[1..];
      var x := ToCrlf(t);
      NormalizeToCrlf(t);
      if s[0] == '\n' {
        assert ToCrlf(s) == "\r\n" + x;
        assert ("\r\n" + x)[2..] == x;
      } else {
        assert ToCrlf(s) == [s[0]] + x;
        assert !("\r\n" <= [s[0]] + x);
        assert ([s[0]] + x)[1..] == x;
      }
      assert s == [s[0]] + t;
    }
  }

  /** Normalisation leaves a text unchanged exactly when it holds no CR LF. */
  lemma {:induction false} NormalizeFixedIff(s: string)
    ensures Normalize(s) == s <==> !Contains(s, "\r\n")
  {
    if "\r\n" <= s {
      assert s[0..] == s;
      assert |Normalize(s)| < |s|;
    } else if s != [] {
      var t := s[1..];
      assert s == [s[0]] + t;
      ContainsCons(s[0], t, "\r\n");
      NormalizeFixedIff(t);
    }
  }

  /** A CR LF survives normalisation exactly where the input held CR CR LF:
      the pass consumes the second CR with the LF and leaves the first. */
  lemma {:induction false} NormalizeLeavesCrlfIff(s: string)
    ensures Contains(Normalize(s), "\r\n") <==> Contains(s, "\r\r\n")
  {
    if "\r\n" <= s {
      var t := s[2..];
      NormalizeLeavesCrlfIff(t);
      ContainsCons('\n', Normalize(t), "\r\n");
      assert s == ['\r'] + (['\n'] + t);
      ContainsCons('\r', ['\n'] + t, "\r\r\n");
      ContainsCons('\n', t, "\r\r\n");
    } else if s != [] {
      var t := s[1..];
      NormalizeLeavesCrlfIff(t);
      assert s == [s[0]] + t;
      ContainsCons(s[0], Normalize(t), "\r\n");
      ContainsCons(s[0], t, "\r\r\n");
      if t != [] {
        NormalizeHead(t);
        assert "\r\r\n" <= s <==> s[0] == '\r' && "\r\n" <= t;
      }
    }
  }

  /** Normalising twice equals normalising once exactly when the input holds
      no CR CR LF. */
  lemma NormalizeIdempotentIff(s: string)
    ensures Normalize(Normalize(s)) == Normalize(s) <==> !Contains(s, "\r\r\n")
  {
    NormalizeFixedIff(Normalize(s));
    NormalizeLeavesCrlfIff(s);
  }

  /** The single pass is not idempotent in general: CR CR LF becomes CR LF
      once and LF the second time. */
  lemma NormalizeOncePassWitness()
    ensures Normalize("\r\r\n") == "\r\n"
    ensures Normalize(Normalize("\r\r\n")) == "\n"
  {
    assert !("\r\n" <= "\r\r\n");
    assert "\r\r\n"[1..] == "\r\n";
  }
}
