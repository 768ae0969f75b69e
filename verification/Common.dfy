/** Small vocabulary shared by every model. */
module Common {
  datatype Option<+T> = None | Some(value: T)

  // size_t and uint64_t of the source.
  const TWO_64: nat := 0x1_0000_0000_0000_0000

  // std::to_string and std::format of an unsigned number.
  function Digits(n: nat): string {
    if n < 10 then [('0' as int + n) as char] else Digits(n / 10) + [('0' as int + n % 10) as char]
  }

  function Parse(s: string): int {
    if s == [] then 0 else 10 * Parse(s[..|s| - 1]) + (s[|s| - 1] as int - '0' as int)
  }

  lemma {:induction false} ParseDigits(n: nat)
    ensures Parse(Digits(n)) == n
  {
    if n < 10 {
      assert Digits(n)[..0] == [];
    } else {
      ParseDigits(n / 10);
      var s := Digits(n);
      assert s[..|s| - 1] == Digits(n / 10);
    }
  }

  lemma {:induction false} DigitsStart(n: nat)
    ensures Digits(n) != [] && '0' <= Digits(n)[0] <= '9'
  {
    if n < 10 {
    } else {
      DigitsStart(n / 10);
    }
  }
}
