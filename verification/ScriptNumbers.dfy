/** Facts about numbers and truth values on the stack. */
module ScriptNumbers {
  import opened Wrappers
  import opened BitcoinScript

  lemma {:induction false} EncodePositiveValue(n: nat)
    ensures LittleEndian(EncodePositive(n)) == n
    ensures EncodePositive(n)[|EncodePositive(n)| - 1] < 128
    decreases n
  {
    if n >= 0x80 {
      EncodePositiveValue(n / 256);
      assert EncodePositive(n)[1..] == EncodePositive(n / 256);
    } else {
      assert [n][1..] == [];
    }
  }

  /** Decoding inverts encoding wherever it does not abort for length. */
  lemma DecodeEncode(n: nat)
    ensures |EncodeNum(n)| <= 4 ==> DecodeNum(EncodeNum(n)) == Some(n)
    ensures DecodeNum(EncodeNum(n)).Some? ==> |EncodeNum(n)| <= 4
  {
    if n > 0 {
      EncodePositiveValue(n);
    }
  }

  lemma {:induction false} LittleEndianZero(b: Bytes)
    ensures LittleEndian(b) == 0 <==> forall i :: 0 <= i < |b| ==> b[i] == 0
    decreases b
  {
    if b != [] {
      LittleEndianZero(b[1..]);
      if LittleEndian(b) == 0 {
        forall i | 0 <= i < |b| ensures b[i] == 0 {
          if i > 0 {
            assert b[1..][i - 1] == b[i];
          }
        }
      } else if b[0] == 0 {
        var i :| 0 <= i < |b[1..]| && b[1..][i] != 0;
        assert b[i + 1] != 0;
      }
    }
  }

  lemma {:induction false} TruthyBytes(b: Bytes)
    ensures Truthy(b) <==> exists i :: 0 <= i < |b| && b[i] != 0 && !(i == |b| - 1 && b[i] == 128)
    decreases b
  {
    if |b| > 1 {
      TruthyBytes(b[1..]);
      if Truthy(b) && b[0] == 0 {
        var i :| 0 <= i < |b[1..]| && b[1..][i] != 0 && !(i == |b| - 2 && b[1..][i] == 128);
        assert b[i + 1] != 0;
      }
      if i :| 0 <= i < |b| && b[i] != 0 && !(i == |b| - 1 && b[i] == 128) {
        if i > 0 {
          assert b[1..][i - 1] == b[i];
        } else {
          assert b[0] != 0;
        }
      }
    }
  }

  /** A number read by an arithmetic opcode is non-zero exactly when the element counts as true. */
  lemma DecodeTruthy(b: Bytes)
    requires DecodeNum(b).Some?
    ensures DecodeNum(b).value != 0 <==> Truthy(b)
  {
    TruthyBytes(b);
    if b != [] {
      var last := |b| - 1;
      if b[last] < 128 {
        LittleEndianZero(b);
      } else {
        var c := b[last := b[last] - 128];
        LittleEndianZero(c);
        assert forall i :: 0 <= i < last ==> c[i] == b[i];
        assert c[last] == b[last] - 128;
      }
    }
  }

  lemma SmallNumbers(n: nat)
    requires 1 <= n <= 16
    ensures EncodeNum(n) == [n] && DecodeNum([n]) == Some(n)
  {
    assert [n][1..] == [];
    assert LittleEndian([n]) == n + 256 * LittleEndian([n][1..]);
  }

  /** BOOLAND and BOOLOR leave 1 or the empty element, by the truth of both inputs. */
  lemma BoolResult(env: Env, op: Op, q: Stack, s': Stack)
    requires op == BoolAnd || op == BoolOr
    requires ExecMain(env, op, q) == Some(s')
    ensures q.Cons? && q.rest.Cons? && s'.Cons? && s'.rest == q.rest.rest
    ensures op == BoolAnd ==> s'.top == Bool(Truthy(q.top) && Truthy(q.rest.top))
    ensures op == BoolOr ==> s'.top == Bool(Truthy(q.top) || Truthy(q.rest.top))
  {
    DecodeTruthy(q.top);
    DecodeTruthy(q.rest.top);
    SmallNumbers(1);
  }

  lemma ZeroNotEqualResult(env: Env, r: Stack, s': Stack)
    requires ExecMain(env, ZeroNotEqual, r) == Some(s')
    ensures r.Cons? && s' == Cons(Bool(Truthy(r.top)), r.rest)
  {
    DecodeTruthy(r.top);
  }

  lemma TruthyBool(b: bool)
    ensures Truthy(Bool(b)) == b
  {
    assert |[1]| == 1;
  }

  lemma SizeResult(env: Env, s: Stack, q: Stack)
    requires ExecMain(env, Size, s) == Some(q)
    ensures s.Cons? && q == Cons(EncodeNum(|s.top|), s)
  {
    hide EncodeNum;
  }

  lemma ZeroNotEqualDecodes(env: Env, q: Stack, r: Stack)
    requires ExecMain(env, ZeroNotEqual, q) == Some(r)
    ensures q.Cons? && DecodeNum(q.top).Some? && r == Cons(Bool(DecodeNum(q.top).value != 0), q.rest)
  {
    hide DecodeNum;
  }

  lemma SizeTest(env: Env, s: Stack, q: Stack, r: Stack)
    requires ExecMain(env, Size, s) == Some(q) && ExecMain(env, ZeroNotEqual, q) == Some(r)
    ensures s.Cons? && r == Cons(Bool(s.top != []), s)
  {
    hide DecodeNum, EncodeNum, ExecMain;
    SizeResult(env, s, q);
    ZeroNotEqualDecodes(env, q, r);
    DecodeEncode(|s.top|);
  }
}
