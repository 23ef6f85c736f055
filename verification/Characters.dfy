/** The letters and digits, one by one. */
module Characters {
  const SMALL := "abcdefghijklmnopqrstuvwxyz"
  const CAPITAL := "ABCDEFGHIJKLMNOPQRSTUVWXYZ"
  const DIGITS := "0123456789"

  lemma SmallAt(i: nat)
    requires i < 26
    ensures |SMALL| == 26 && SMALL[i] as int == 'a' as int + i
  {}

  lemma CapitalAt(i: nat)
    requires i < 26
    ensures |CAPITAL| == 26 && CAPITAL[i] as int == 'A' as int + i
  {}

  lemma Smalls(c: char)
    ensures c in SMALL <==> 'a' <= c <= 'z'
  {
    if 'a' <= c <= 'z' {
      SmallAt(c as int - 'a' as int);
    } else {
      forall i | 0 <= i < 26 ensures SMALL[i] != c {
        SmallAt(i);
      }
    }
  }

  lemma Capitals(c: char)
    ensures c in CAPITAL <==> 'A' <= c <= 'Z'
  {
    if 'A' <= c <= 'Z' {
      CapitalAt(c as int - 'A' as int);
    } else {
      forall i | 0 <= i < 26 ensures CAPITAL[i] != c {
        CapitalAt(i);
      }
    }
  }

  lemma Digits(c: char)
    ensures c in DIGITS <==> '0' <= c <= '9'
  {
    assert c in DIGITS <==> c == '0' || c == '1' || c == '2' || c == '3' || c == '4' || c == '5' || c == '6' || c == '7'
                            || c == '8' || c == '9';
  }
}
