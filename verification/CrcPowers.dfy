/** crc32.c and crc32.h: the stored powers of x, and x^(2^32), which is x again. So the
    index into the powers may wrap around. */
module CrcPowers {
  import Bits
  import opened Crc32

  /** x2n_table of crc32.h. */
  function Stored(k: nat): bv32
    requires k < 32
  {
    match k
    case 0 => 0x40000000 case 1 => 0x20000000 case 2 => 0x08000000 case 3 => 0x00800000
    case 4 => 0x00008000 case 5 => 0xedb88320 case 6 => 0xb1e6b092 case 7 => 0xa06a2517
    case 8 => 0xed627dae case 9 => 0x88d14467 case 10 => 0xd7bbfe6a case 11 => 0xec447f11
    case 12 => 0x8e7ea170 case 13 => 0x6427800e case 14 => 0x4d47bae0 case 15 => 0x09fe548f
    case 16 => 0x83852d0f case 17 => 0x30362f1a case 18 => 0x7b5a9cc3 case 19 => 0x31fec169
    case 20 => 0x9fec022a case 21 => 0x6c8dedc4 case 22 => 0x15d6874d case 23 => 0x5fde7a4e
    case 24 => 0xbad90e37 case 25 => 0x2e4e5eef case 26 => 0x4eaba214 case 27 => 0xa8a472c0
    case 28 => 0x429a969e case 29 => 0x148d302a case 30 => 0xc40ba6d0 case 31 => 0xc4e22c3c
  }

  // ---- Registers as words of 32 bits ----

  predicate On(b: bv32, m: bv32) { b & m != 0 }

  function Half(b: bv32): bv32 { b >> 1 }

  function Add(a: bv32, b: bv32): bv32 { a ^ b }

  /** The bit of x^i. */
  function Mask(i: nat): bv32 {
    if i == 0 then 0x80000000 else Half(Mask(i - 1))
  }

  function ToWord(b: bv32): (r: Word)
    ensures |r| == W
  {
    seq(W, i requires 0 <= i < W => On(b, Mask(i)))
  }

  /** Multiplying by x. */
  function TimesX(b: bv32): bv32 {
    if On(b, 1) then Add(Half(b), 0xedb88320) else Half(b)
  }

  /** A product in the making: the bit at hand, b times that power of x, and the sum. */
  datatype Acc = Acc(m: bv32, b: bv32, p: bv32)

  function OneBit(a: bv32, t: Acc): Acc {
    Acc(Half(t.m), TimesX(t.b), if On(a, t.m) then Add(t.p, t.b) else t.p)
  }

  function Four(a: bv32, t: Acc): Acc { OneBit(a, OneBit(a, OneBit(a, OneBit(a, t)))) }

  function Eight(a: bv32, t: Acc): Acc { Four(a, Four(a, t)) }

  function Square(c: bv32): bv32 { Eight(c, Eight(c, Eight(c, Eight(c, Acc(0x80000000, c, 0))))).p }

  lemma Square0()
    ensures Square(0x40000000) == 0x20000000
  {
    assert Eight(0x40000000, Acc(0x80000000, 0x40000000, 0)) == Acc(0x00800000, 0x00400000, 0x20000000);
    assert Eight(0x40000000, Acc(0x00800000, 0x00400000, 0x20000000)) == Acc(0x00008000, 0x00004000, 0x20000000);
    assert Eight(0x40000000, Acc(0x00008000, 0x00004000, 0x20000000)) == Acc(0x00000080, 0x00000040, 0x20000000);
  }

  lemma Square1()
    ensures Square(0x20000000) == 0x08000000
  {
    assert Eight(0x20000000, Acc(0x80000000, 0x20000000, 0)) == Acc(0x00800000, 0x00200000, 0x08000000);
    assert Eight(0x20000000, Acc(0x00800000, 0x00200000, 0x08000000)) == Acc(0x00008000, 0x00002000, 0x08000000);
    assert Eight(0x20000000, Acc(0x00008000, 0x00002000, 0x08000000)) == Acc(0x00000080, 0x00000020, 0x08000000);
  }

  lemma Square2()
    ensures Square(0x08000000) == 0x00800000
  {
    assert Eight(0x08000000, Acc(0x80000000, 0x08000000, 0)) == Acc(0x00800000, 0x00080000, 0x00800000);
    assert Eight(0x08000000, Acc(0x00800000, 0x00080000, 0x00800000)) == Acc(0x00008000, 0x00000800, 0x00800000);
    assert Eight(0x08000000, Acc(0x00008000, 0x00000800, 0x00800000)) == Acc(0x00000080, 0x00000008, 0x00800000);
  }

  lemma Square3()
    ensures Square(0x00800000) == 0x00008000
  {
    assert Eight(0x00800000, Acc(0x80000000, 0x00800000, 0)) == Acc(0x00800000, 0x00008000, 0);
    assert Eight(0x00800000, Acc(0x00800000, 0x00008000, 0)) == Acc(0x00008000, 0x00000080, 0x00008000);
    assert Eight(0x00800000, Acc(0x00008000, 0x00000080, 0x00008000)) == Acc(0x00000080, 0xedb88320, 0x00008000);
  }

  lemma Square4()
    ensures Square(0x00008000) == 0xedb88320
  {
    assert Eight(0x00008000, Acc(0x80000000, 0x00008000, 0)) == Acc(0x00800000, 0x00000080, 0);
    assert Eight(0x00008000, Acc(0x00800000, 0x00000080, 0)) == Acc(0x00008000, 0xedb88320, 0);
    assert Eight(0x00008000, Acc(0x00008000, 0xedb88320, 0)) == Acc(0x00000080, 0x3b83984b, 0xedb88320);
  }

  lemma Square5()
    ensures Square(0xedb88320) == 0xb1e6b092
  {
    assert Eight(0xedb88320, Acc(0x80000000, 0xedb88320, 0)) == Acc(0x00800000, 0x3b83984b, 0xdebb9ec5);
    assert Eight(0xedb88320, Acc(0x00800000, 0x3b83984b, 0xdebb9ec5)) == Acc(0x00008000, 0xe1351b80, 0xf2a7ba75);
    assert Eight(0xedb88320, Acc(0x00008000, 0xe1351b80, 0xf2a7ba75)) == Acc(0x00000080, 0xed59b63b, 0x11d41fac);
  }

  lemma Square6()
    ensures Square(0xb1e6b092) == 0xa06a2517
  {
    assert Eight(0xb1e6b092, Acc(0x80000000, 0xb1e6b092, 0)) == Acc(0x00800000, 0x1eb014d8, 0x2da721a4);
    assert Eight(0xb1e6b092, Acc(0x00800000, 0x1eb014d8, 0x2da721a4)) == Acc(0x00008000, 0x8816eaf2, 0xedbad93b);
    assert Eight(0xb1e6b092, Acc(0x00008000, 0x8816eaf2, 0xedbad93b)) == Acc(0x00000080, 0x533b85da, 0xcdcf969b);
  }

  lemma Square7()
    ensures Square(0xa06a2517) == 0xed627dae
  {
    assert Eight(0xa06a2517, Acc(0x80000000, 0xa06a2517, 0)) == Acc(0x00800000, 0x8373efe2, 0x13146ee2);
    assert Eight(0xa06a2517, Acc(0x00800000, 0x8373efe2, 0x13146ee2)) == Acc(0x00008000, 0x4e87f0bb, 0x4dfe3b50);
    assert Eight(0xa06a2517, Acc(0x00008000, 0x4e87f0bb, 0x4dfe3b50)) == Acc(0x00000080, 0x5cfdedf4, 0xf6bcbb45);
  }

  lemma Square8()
    ensures Square(0xed627dae) == 0x88d14467
  {
    assert Eight(0xed627dae, Acc(0x80000000, 0xed627dae, 0)) == Acc(0x00800000, 0x3183ec92, 0xd7862165);
    assert Eight(0xed627dae, Acc(0x00800000, 0x3183ec92, 0xd7862165)) == Acc(0x00008000, 0x1e307184, 0x565e6938);
    assert Eight(0xed627dae, Acc(0x00008000, 0x1e307184, 0x565e6938)) == Acc(0x00000080, 0xeacb7748, 0xf2f3cd96);
  }

  lemma Square9()
    ensures Square(0x88d14467) == 0xd7bbfe6a
  {
    assert Eight(0x88d14467, Acc(0x80000000, 0x88d14467, 0)) == Acc(0x00800000, 0xd35e25bf, 0xd059211d);
    assert Eight(0x88d14467, Acc(0x00800000, 0xd35e25bf, 0xd059211d)) == Acc(0x00008000, 0x5b0df038, 0x8b6a53e2);
    assert Eight(0x88d14467, Acc(0x00008000, 0x5b0df038, 0x8b6a53e2)) == Acc(0x00000080, 0x2859b56e, 0x3f5006cf);
  }

  lemma Square10()
    ensures Square(0xd7bbfe6a) == 0xec447f11
  {
    assert Eight(0xd7bbfe6a, Acc(0x80000000, 0xd7bbfe6a, 0)) == Acc(0x00800000, 0xadb033b8, 0xe6d91417);
    assert Eight(0xd7bbfe6a, Acc(0x00800000, 0xadb033b8, 0xe6d91417)) == Acc(0x00008000, 0xc5178b8d, 0x61329ec0);
    assert Eight(0xd7bbfe6a, Acc(0x00008000, 0xc5178b8d, 0x61329ec0)) == Acc(0x00000080, 0x93cce816, 0x4f98f780);
  }

  lemma Square11()
    ensures Square(0xec447f11) == 0x8e7ea170
  {
    assert Eight(0xec447f11, Acc(0x80000000, 0xec447f11, 0)) == Acc(0x00800000, 0x6a5c648d, 0xcd61e292);
    assert Eight(0xec447f11, Acc(0x00800000, 0x6a5c648d, 0xcd61e292)) == Acc(0x00008000, 0x9363a3f9, 0x55cc59ba);
    assert Eight(0xec447f11, Acc(0x00008000, 0x9363a3f9, 0x55cc59ba)) == Acc(0x00000080, 0xc4f2291b, 0x1561f4c0);
  }

  lemma Square12()
    ensures Square(0x8e7ea170) == 0x6427800e
  {
    assert Eight(0x8e7ea170, Acc(0x80000000, 0x8e7ea170, 0)) == Acc(0x00800000, 0x508b0f9d, 0xf60f0579);
    assert Eight(0x8e7ea170, Acc(0x00800000, 0x508b0f9d, 0xf60f0579)) == Acc(0x00008000, 0x8eee64f6, 0xf46f88fb);
    assert Eight(0x8e7ea170, Acc(0x00008000, 0x8eee64f6, 0xf46f88fb)) == Acc(0x00000080, 0x5450b94d, 0x1c23848a);
  }

  lemma Square13()
    ensures Square(0x6427800e) == 0x4d47bae0
  {
    assert Eight(0x6427800e, Acc(0x80000000, 0x6427800e, 0)) == Acc(0x00800000, 0xe7dc0a87, 0x9586ee18);
    assert Eight(0x6427800e, Acc(0x00800000, 0xe7dc0a87, 0x9586ee18)) == Acc(0x00008000, 0x733bca89, 0xe9c0cfb4);
    assert Eight(0x6427800e, Acc(0x00008000, 0x733bca89, 0xe9c0cfb4)) == Acc(0x00000080, 0x9417004e, 0x9afb053d);
  }

  lemma Square14()
    ensures Square(0x4d47bae0) == 0x09fe548f
  {
    assert Eight(0x4d47bae0, Acc(0x80000000, 0x4d47bae0, 0)) == Acc(0x00800000, 0xa047a5c2, 0xbbe3d6cc);
    assert Eight(0x4d47bae0, Acc(0x00800000, 0xa047a5c2, 0xbbe3d6cc)) == Acc(0x00008000, 0x75cae439, 0x14ba77b0);
    assert Eight(0x4d47bae0, Acc(0x00008000, 0x75cae439, 0x14ba77b0)) == Acc(0x00000080, 0x5f7042ec, 0x6eea27ae);
  }

  lemma Square15()
    ensures Square(0x09fe548f) == 0x83852d0f
  {
    assert Eight(0x09fe548f, Acc(0x80000000, 0x09fe548f, 0)) == Acc(0x00800000, 0x7d0e60e5, 0x473ed69e);
    assert Eight(0x09fe548f, Acc(0x00800000, 0x7d0e60e5, 0x473ed69e)) == Acc(0x00008000, 0xd01d1897, 0xf597b1ad);
    assert Eight(0x09fe548f, Acc(0x00008000, 0xd01d1897, 0xf597b1ad)) == Acc(0x00000080, 0x6ebb1bff, 0x09122cd6);
  }

  lemma Square16()
    ensures Square(0x83852d0f) == 0x30362f1a
  {
    assert Eight(0x83852d0f, Acc(0x80000000, 0x83852d0f, 0)) == Acc(0x00800000, 0x903c98bc, 0x55ec7205);
    assert Eight(0x83852d0f, Acc(0x00800000, 0x903c98bc, 0x55ec7205)) == Acc(0x00008000, 0xc247c33f, 0x3ea56c3b);
    assert Eight(0x83852d0f, Acc(0x00008000, 0xc247c33f, 0x3ea56c3b)) == Acc(0x00000080, 0xb6a46afe, 0x278447e1);
  }

  lemma Square17()
    ensures Square(0x30362f1a) == 0x7b5a9cc3
  {
    assert Eight(0x30362f1a, Acc(0x80000000, 0x30362f1a, 0)) == Acc(0x00800000, 0xfd52cf55, 0x916f8c95);
    assert Eight(0x30362f1a, Acc(0x00800000, 0xfd52cf55, 0x916f8c95)) == Acc(0x00008000, 0x1bfcf7b4, 0xa18fe7a2);
    assert Eight(0x30362f1a, Acc(0x00008000, 0x1bfcf7b4, 0xa18fe7a2)) == Acc(0x00000080, 0xcc178b62, 0xc3f8217e);
  }

  lemma Square18()
    ensures Square(0x7b5a9cc3) == 0x31fec169
  {
    assert Eight(0x7b5a9cc3, Acc(0x80000000, 0x7b5a9cc3, 0)) == Acc(0x00800000, 0x0216c996, 0x3a64b615);
    assert Eight(0x7b5a9cc3, Acc(0x00800000, 0x0216c996, 0x3a64b615)) == Acc(0x00008000, 0x196e20b8, 0x8862467d);
    assert Eight(0x7b5a9cc3, Acc(0x00008000, 0x196e20b8, 0x8862467d)) == Acc(0x00000080, 0xc5a3559e, 0xe5a0704c);
  }

  lemma Square19()
    ensures Square(0x31fec169) == 0x9fec022a
  {
    assert Eight(0x31fec169, Acc(0x80000000, 0x31fec169, 0)) == Acc(0x00800000, 0x345f273d, 0x2f4c4755);
    assert Eight(0x31fec169, Acc(0x00800000, 0x345f273d, 0x2f4c4755)) == Acc(0x00008000, 0x585c1336, 0xd7f646cb);
    assert Eight(0x31fec169, Acc(0x00008000, 0x585c1336, 0xd7f646cb)) == Acc(0x00000080, 0xcfe2c98a, 0xe730c933);
  }

  lemma Square20()
    ensures Square(0x9fec022a) == 0x6c8dedc4
  {
    assert Eight(0x9fec022a, Acc(0x80000000, 0x9fec022a, 0)) == Acc(0x00800000, 0xdb2425d4, 0xfd3a47eb);
    assert Eight(0x9fec022a, Acc(0x00800000, 0xdb2425d4, 0xfd3a47eb)) == Acc(0x00008000, 0x816532e8, 0xd624f8ab);
    assert Eight(0x9fec022a, Acc(0x00008000, 0x816532e8, 0xd624f8ab)) == Acc(0x00000080, 0xae500f78, 0x02f7cf88);
  }

  lemma Square21()
    ensures Square(0x6c8dedc4) == 0x15d6874d
  {
    assert Eight(0x6c8dedc4, Acc(0x80000000, 0x6c8dedc4, 0)) == Acc(0x00800000, 0x9c658b44, 0x657b5d79);
    assert Eight(0x6c8dedc4, Acc(0x00800000, 0x9c658b44, 0x657b5d79)) == Acc(0x00008000, 0x712de002, 0x5bd2038f);
    assert Eight(0x6c8dedc4, Acc(0x00008000, 0x712de002, 0x5bd2038f)) == Acc(0x00000080, 0xee7f4ccc, 0xc657f6d9);
  }

  lemma Square22()
    ensures Square(0x15d6874d) == 0x5fde7a4e
  {
    assert Eight(0x15d6874d, Acc(0x80000000, 0x15d6874d, 0)) == Acc(0x00800000, 0x0878ebaa, 0x875af905);
    assert Eight(0x15d6874d, Acc(0x00800000, 0x0878ebaa, 0x875af905)) == Acc(0x00008000, 0x360b321d, 0x4fc96542);
    assert Eight(0x15d6874d, Acc(0x00008000, 0x360b321d, 0x4fc96542)) == Acc(0x00000080, 0x633067eb, 0x477332be);
  }

  lemma Square23()
    ensures Square(0x5fde7a4e) == 0xbad90e37
  {
    assert Eight(0x5fde7a4e, Acc(0x80000000, 0x5fde7a4e, 0)) == Acc(0x00800000, 0x913bb2ed, 0x98071500);
    assert Eight(0x5fde7a4e, Acc(0x00800000, 0x913bb2ed, 0x98071500)) == Acc(0x00008000, 0xde2aa577, 0x6e80ec57);
    assert Eight(0x5fde7a4e, Acc(0x00008000, 0xde2aa577, 0x6e80ec57)) == Acc(0x00000080, 0xcebfce3a, 0x2af60ff6);
  }

  lemma Square24()
    ensures Square(0xbad90e37) == 0x2e4e5eef
  {
    assert Eight(0xbad90e37, Acc(0x80000000, 0xbad90e37, 0)) == Acc(0x00800000, 0xb8077c01, 0x6e7c57ac);
    assert Eight(0xbad90e37, Acc(0x00800000, 0xb8077c01, 0x6e7c57ac)) == Acc(0x00008000, 0x77bf37ea, 0xb2e7d1b5);
    assert Eight(0xbad90e37, Acc(0x00008000, 0x77bf37ea, 0xb2e7d1b5)) == Acc(0x00000080, 0x40a8b451, 0xd24ffe6d);
  }

  lemma Square25()
    ensures Square(0x2e4e5eef) == 0x4eaba214
  {
    assert Eight(0x2e4e5eef, Acc(0x80000000, 0x2e4e5eef, 0)) == Acc(0x00800000, 0x309bb1b7, 0xb26c0fdc);
    assert Eight(0x2e4e5eef, Acc(0x00800000, 0x309bb1b7, 0xb26c0fdc)) == Acc(0x00008000, 0x5535bd9e, 0x5f0c880a);
    assert Eight(0x2e4e5eef, Acc(0x00008000, 0x5535bd9e, 0x5f0c880a)) == Acc(0x00000080, 0x17e28bfe, 0xa193ea6f);
  }

  lemma Square26()
    ensures Square(0x4eaba214) == 0xa8a472c0
  {
    assert Eight(0x4eaba214, Acc(0x80000000, 0x4eaba214, 0)) == Acc(0x00800000, 0x1a947fdf, 0xeb912b3f);
    assert Eight(0x4eaba214, Acc(0x00800000, 0x1a947fdf, 0xeb912b3f)) == Acc(0x00008000, 0x16765b3a, 0xa5e5e6da);
    assert Eight(0x4eaba214, Acc(0x00008000, 0x16765b3a, 0xa5e5e6da)) == Acc(0x00000080, 0xc61aafe9, 0xf53e1b28);
  }

  lemma Square27()
    ensures Square(0xa8a472c0) == 0x429a969e
  {
    assert Eight(0xa8a472c0, Acc(0x80000000, 0xa8a472c0, 0)) == Acc(0x00800000, 0x9bcc66c2, 0x8807295c);
    assert Eight(0xa8a472c0, Acc(0x00800000, 0x9bcc66c2, 0x8807295c)) == Acc(0x00008000, 0x75f16ffa, 0xc1e9a65c);
    assert Eight(0xa8a472c0, Acc(0x00008000, 0x75f16ffa, 0xc1e9a65c)) == Acc(0x00000080, 0x5d1dea6d, 0xdcb10ae5);
  }

  lemma Square28()
    ensures Square(0x429a969e) == 0x148d302a
  {
    assert Eight(0x429a969e, Acc(0x80000000, 0x429a969e, 0)) == Acc(0x00800000, 0x17f524d5, 0x7e99d81b);
    assert Eight(0x429a969e, Acc(0x00800000, 0x17f524d5, 0x7e99d81b)) == Acc(0x00008000, 0xf6aed37f, 0xbb09b97b);
    assert Eight(0x429a969e, Acc(0x00008000, 0xf6aed37f, 0xbb09b97b)) == Acc(0x00000080, 0xc04cc27e, 0xf07a5bdc);
  }

  lemma Square29()
    ensures Square(0x148d302a) == 0xc40ba6d0
  {
    assert Eight(0x148d302a, Acc(0x80000000, 0x148d302a, 0)) == Acc(0x00800000, 0xdbaf44e6, 0x1f82dfe0);
    assert Eight(0x148d302a, Acc(0x00800000, 0xdbaf44e6, 0x1f82dfe0)) == Acc(0x00008000, 0x49b2e809, 0x37449489);
    assert Eight(0x148d302a, Acc(0x00008000, 0x49b2e809, 0x37449489)) == Acc(0x00000080, 0x79950a4c, 0x61ac12d2);
  }

  lemma Square30()
    ensures Square(0xc40ba6d0) == 0xc4e22c3c
  {
    assert Eight(0xc40ba6d0, Acc(0x80000000, 0xc40ba6d0, 0)) == Acc(0x00800000, 0x8617d972, 0x4d96abae);
    assert Eight(0xc40ba6d0, Acc(0x00800000, 0x8617d972, 0x4d96abae)) == Acc(0x00008000, 0xbe8d07c9, 0x4f55eac5);
    assert Eight(0xc40ba6d0, Acc(0x00008000, 0xbe8d07c9, 0x4f55eac5)) == Acc(0x00000080, 0xe206f713, 0xebad9c3c);
  }

  lemma Square31()
    ensures Square(0xc4e22c3c) == 0x40000000
  {
    assert Eight(0xc4e22c3c, Acc(0x80000000, 0xc4e22c3c, 0)) == Acc(0x00800000, 0x2fab9eab, 0x00bec93b);
    assert Eight(0xc4e22c3c, Acc(0x00800000, 0x2fab9eab, 0x00bec93b)) == Acc(0x00008000, 0x412bd1fe, 0x9a287f46);
    assert Eight(0xc4e22c3c, Acc(0x00008000, 0x412bd1fe, 0x9a287f46)) == Acc(0x00000080, 0x5a44f4ca, 0x7c76fbed);
  }

  /** Four bits of the polynomial from bit g on. */
  ghost predicate PolyMatches(g: nat)
    requires g + 4 <= W
  {
    forall i :: g <= i < g + 4 ==> ToWord(0xedb88320)[i] == POLY[i]
  }

  lemma PolyAt(i: nat, m: bv32)
    requires i < W && Mask(i) == m && On(0xedb88320, m) == POLY[i]
    ensures ToWord(0xedb88320)[i] == POLY[i] && Mask(i + 1) == Half(m)
  {
    hide POLY, On, Half;
  }

  lemma Poly0()
    requires Mask(0) == 0x80000000
    ensures PolyMatches(0) && Mask(4) == 0x08000000
  {
    hide ToWord, Mask;
    PolyAt(0, 0x80000000);
    PolyAt(1, 0x40000000);
    PolyAt(2, 0x20000000);
    PolyAt(3, 0x10000000);
  }

  lemma Poly4()
    requires Mask(4) == 0x08000000
    ensures PolyMatches(4) && Mask(8) == 0x00800000
  {
    hide ToWord, Mask;
    PolyAt(4, 0x08000000);
    PolyAt(5, 0x04000000);
    PolyAt(6, 0x02000000);
    PolyAt(7, 0x01000000);
  }

  lemma Poly8()
    requires Mask(8) == 0x00800000
    ensures PolyMatches(8) && Mask(12) == 0x00080000
  {
    hide ToWord, Mask;
    PolyAt(8, 0x00800000);
    PolyAt(9, 0x00400000);
    PolyAt(10, 0x00200000);
    PolyAt(11, 0x00100000);
  }

  lemma Poly12()
    requires Mask(12) == 0x00080000
    ensures PolyMatches(12) && Mask(16) == 0x00008000
  {
    hide ToWord, Mask;
    PolyAt(12, 0x00080000);
    PolyAt(13, 0x00040000);
    PolyAt(14, 0x00020000);
    PolyAt(15, 0x00010000);
  }

  lemma Poly16()
    requires Mask(16) == 0x00008000
    ensures PolyMatches(16) && Mask(20) == 0x00000800
  {
    hide ToWord, Mask;
    PolyAt(16, 0x00008000);
    PolyAt(17, 0x00004000);
    PolyAt(18, 0x00002000);
    PolyAt(19, 0x00001000);
  }

  lemma Poly20()
    requires Mask(20) == 0x00000800
    ensures PolyMatches(20) && Mask(24) == 0x00000080
  {
    hide ToWord, Mask;
    PolyAt(20, 0x00000800);
    PolyAt(21, 0x00000400);
    PolyAt(22, 0x00000200);
    PolyAt(23, 0x00000100);
  }

  lemma Poly24()
    requires Mask(24) == 0x00000080
    ensures PolyMatches(24) && Mask(28) == 0x00000008
  {
    hide ToWord, Mask;
    PolyAt(24, 0x00000080);
    PolyAt(25, 0x00000040);
    PolyAt(26, 0x00000020);
    PolyAt(27, 0x00000010);
  }

  lemma Poly28()
    requires Mask(28) == 0x00000008
    ensures PolyMatches(28) && Mask(32) == 0x00000000
  {
    hide ToWord, Mask;
    PolyAt(28, 0x00000008);
    PolyAt(29, 0x00000004);
    PolyAt(30, 0x00000002);
    PolyAt(31, 0x00000001);
  }

  lemma SquareNext(k: nat)
    requires k < 32
    ensures Square(Stored(k)) == Stored((k + 1) % 32)
  {
    hide Square;
    match k {
      case 0 => Square0();
      case 1 => Square1();
      case 2 => Square2();
      case 3 => Square3();
      case 4 => Square4();
      case 5 => Square5();
      case 6 => Square6();
      case 7 => Square7();
      case 8 => Square8();
      case 9 => Square9();
      case 10 => Square10();
      case 11 => Square11();
      case 12 => Square12();
      case 13 => Square13();
      case 14 => Square14();
      case 15 => Square15();
      case 16 => Square16();
      case 17 => Square17();
      case 18 => Square18();
      case 19 => Square19();
      case 20 => Square20();
      case 21 => Square21();
      case 22 => Square22();
      case 23 => Square23();
      case 24 => Square24();
      case 25 => Square25();
      case 26 => Square26();
      case 27 => Square27();
      case 28 => Square28();
      case 29 => Square29();
      case 30 => Square30();
      case 31 => Square31();
    }
  }

  // ---- What the words stand for ----

  predicate Single(m: bv32) { m != 0 && m & (m - 1) == 0 }

  lemma LastMask()
    ensures Mask(31) == 1
  {
    assert Mask(8) == 0x00800000;
    assert Mask(16) == 0x00008000;
    assert Mask(24) == 0x00000080;
  }

  lemma {:induction false} MaskGone(i: nat, j: nat)
    requires i < j && Mask(i) == 1
    ensures Mask(j) == 0
  {
    if i < j - 1 {
      MaskGone(i, j - 1);
    }
  }

  lemma {:induction false} MaskSingle(i: nat)
    requires i < 32
    ensures Single(Mask(i)) && (i < 31 ==> Mask(i) != 1)
  {
    if i > 0 {
      MaskSingle(i - 1);
      HalfSingle(Mask(i - 1));
    }
    LastMask();
    if i < 31 && Mask(i) == 1 {
      MaskGone(i, 31);
    }
  }

  lemma HalfSingle(m: bv32)
    requires Single(m) && m != 1
    ensures Single(Half(m))
  {
  }

  lemma XorBit(a: bv32, b: bv32, m: bv32)
    requires Single(m)
    ensures On(Add(a, b), m) == (On(a, m) != On(b, m))
  {
    XorBits(a, b, m);
  }

  lemma XorBits(a: bv32, b: bv32, m: bv32)
    requires m != 0 && m & (m - 1) == 0
    ensures ((a ^ b) & m != 0) == ((a & m != 0) != (b & m != 0))
  {
  }

  lemma ShiftBit(b: bv32, m: bv32)
    requires Single(m) && m != 1
    ensures On(Half(b), Half(m)) == On(b, m)
  {
  }

  lemma XorWord(a: bv32, b: bv32)
    ensures ToWord(Add(a, b)) == Xor(ToWord(a), ToWord(b))
  {
    hide Mask, Single, On, Add;
    forall i | 0 <= i < W
      ensures ToWord(Add(a, b))[i] == Xor(ToWord(a), ToWord(b))[i]
    {
      MaskSingle(i);
      XorBit(a, b, Mask(i));
    }
  }

  lemma ZeroWord()
    ensures ToWord(0) == Zero(W)
  {
    hide Mask, On;
    forall i | 0 <= i < W
      ensures !ToWord(0)[i]
    {
      ZeroBit(Mask(i));
    }
  }

  lemma ZeroBit(m: bv32)
    ensures !On(0, m)
  {
  }

  lemma PolyWord()
    ensures ToWord(0xedb88320) == POLY
  {
    assert Mask(0) == 0x80000000;
    hide ToWord, Mask;
    Poly0();
    Poly4();
    Poly8();
    Poly12();
    Poly16();
    Poly20();
    Poly24();
    Poly28();
  }

  lemma BitOf(a: bv32, i: nat)
    requires i < W
    ensures ToWord(a)[i] == On(a, Mask(i)) && Mask(i + 1) == Half(Mask(i))
  {
    hide On, Half;
  }

  /** A shift right. */
  lemma ShiftWord(b: bv32)
    ensures ToWord(Half(b)) == [false] + ToWord(b)[..W - 1] && (ToWord(b)[W - 1] <==> On(b, 1))
  {
    LastMask();
    TopBit(b);
    assert Mask(0) == 0x80000000;
    hide Mask, Single, ToWord, On, Half;
    BitOf(b, W - 1);
    BitOf(Half(b), 0);
    forall i | 0 <= i < W - 1
      ensures ToWord(b)[i] == ToWord(Half(b))[i + 1]
    {
      ShiftAt(b, i);
    }
    Shifted(ToWord(b), ToWord(Half(b)));
  }

  lemma ShiftAt(b: bv32, i: nat)
    requires i < W - 1
    ensures ToWord(b)[i] == ToWord(Half(b))[i + 1]
  {
    hide Mask, Single, ToWord, On, Half;
    MaskSingle(i);
    BitOf(b, i);
    BitOf(Half(b), i + 1);
    ShiftBit(b, Mask(i));
  }

  lemma Shifted(w: Word, v: Word)
    requires |w| == |v| == W && !v[0] && forall i :: 0 <= i < W - 1 ==> w[i] == v[i + 1]
    ensures v == [false] + w[..W - 1]
  {
    forall i | 0 < i < W
      ensures v[i] == ([false] + w[..W - 1])[i]
    {
      assert w[i - 1] == v[i - 1 + 1];
    }
  }

  lemma TopBit(b: bv32)
    ensures !On(Half(b), 0x80000000)
  {
  }

  lemma TimesXWord(b: bv32)
    ensures ToWord(TimesX(b)) == X(ToWord(b))
  {
    hide ToWord, Xor, X, On, Half, Add;
    ShiftWord(b);
    XIsShift(ToWord(b));
    PolyWord();
    XorWord(Half(b), 0xedb88320);
  }

  /** One bit of a product: the sum and what is still to be added stay the same. */
  ghost function Sum(a: bv32, t: Acc, i: nat): Word
    requires i <= W
  {
    Xor(ToWord(t.p), Part(ToWord(a), ToWord(t.b), i))
  }

  lemma StepSum(a: bv32, t: Acc, i: nat)
    requires i < W && t.m == Mask(i)
    ensures OneBit(a, t).m == Mask(i + 1) && Sum(a, OneBit(a, t), i + 1) == Sum(a, t, i)
  {
    var u := OneBit(a, t);
    BitOf(a, i);
    StepParts(a, t);
    hide ToWord, Xor, X, Part, TimesX, Mask, OneBit, On, Half;
    MultStep(ToWord(a), ToWord(t.b), i, ToWord(t.p));
  }

  lemma StepParts(a: bv32, t: Acc)
    ensures var u := OneBit(a, t);
      && u.m == Half(t.m) && ToWord(u.b) == X(ToWord(t.b))
      && ToWord(u.p) == if On(a, t.m) then Xor(ToWord(t.p), ToWord(t.b)) else ToWord(t.p)
  {
    hide ToWord, Xor, X, TimesX, On, Half, Add;
    TimesXWord(t.b);
    XorWord(t.p, t.b);
  }

  lemma FourSum(a: bv32, t: Acc, i: nat)
    requires i + 4 <= W && t.m == Mask(i)
    ensures Four(a, t).m == Mask(i + 4) && Sum(a, Four(a, t), i + 4) == Sum(a, t, i)
  {
    hide OneBit, Sum, Mask;
    StepSum(a, t, i);
    StepSum(a, OneBit(a, t), i + 1);
    StepSum(a, OneBit(a, OneBit(a, t)), i + 2);
    StepSum(a, OneBit(a, OneBit(a, OneBit(a, t))), i + 3);
  }

  lemma EightSum(a: bv32, t: Acc, i: nat)
    requires i + 8 <= W && t.m == Mask(i)
    ensures Eight(a, t).m == Mask(i + 8) && Sum(a, Eight(a, t), i + 8) == Sum(a, t, i)
  {
    hide Four, Sum, Mask;
    FourSum(a, t, i);
    FourSum(a, Four(a, t), i + 4);
  }

  lemma SquareWord(c: bv32)
    ensures ToWord(Square(c)) == Mul(ToWord(c), ToWord(c))
  {
    hide Eight, Mask, ToWord, Part, Xor, Zero, Sum;
    var t := Acc(0x80000000, c, 0);
    FirstSum(c);
    EightSum(c, t, 0);
    EightSum(c, Eight(c, t), 8);
    EightSum(c, Eight(c, Eight(c, t)), 16);
    EightSum(c, Eight(c, Eight(c, Eight(c, t))), 24);
    LastSum(c, Eight(c, Eight(c, Eight(c, Eight(c, t)))));
  }

  lemma FirstSum(c: bv32)
    ensures Mask(0) == 0x80000000 && Sum(c, Acc(0x80000000, c, 0), 0) == Mul(ToWord(c), ToWord(c))
  {
    hide ToWord, Part, Xor, Zero;
    ZeroWord();
    XorZeroLeft(Part(ToWord(c), ToWord(c), 0));
  }

  lemma LastSum(c: bv32, t: Acc)
    ensures Sum(c, t, W) == ToWord(t.p)
  {
    hide ToWord, Part, Xor, Zero;
    NothingLeft(ToWord(c), ToWord(t.b));
    XorZeroLeft(ToWord(t.p));
  }

  lemma NothingLeft(a: Word, b: Word)
    requires |a| == |b| == W
    ensures Part(a, b, W) == Zero(W)
  {
  }

  // ---- The stored powers ----

  lemma {:induction false} MaskSmall(i: nat)
    requires i >= 2
    ensures Mask(i) <= 0x20000000
  {
    if i > 2 {
      MaskSmall(i - 1);
    } else {
      assert Mask(1) == 0x40000000;
    }
  }

  lemma SmallBit(m: bv32)
    requires m <= 0x20000000
    ensures !On(0x40000000, m)
  {
  }

  lemma FirstPower()
    ensures ToWord(Stored(0)) == Power(1)
  {
    PowerUnit(1);
    assert Mask(0) == 0x80000000 && Mask(1) == 0x40000000;
    forall i | 0 <= i < W
      ensures ToWord(0x40000000)[i] == (i == 1)
    {
      if i >= 2 {
        MaskSmall(i);
        SmallBit(Mask(i));
      }
    }
    hide Power, Mask;
  }

  lemma {:induction false} StoredPower(k: nat)
    requires k < 32
    ensures ToWord(Stored(k)) == Power(Bits.Pow2(k))
  {
    hide ToWord, Power, Stored, Bits.Pow2;
    if k == 0 {
      FirstPower();
      Doubled(0);
    } else {
      StoredPower(k - 1);
      SquareNext(k - 1);
      SquareIsPower(Stored(k - 1), Stored(k), k - 1);
    }
  }

  lemma SquareIsPower(c: bv32, d: bv32, k: nat)
    requires Square(c) == d && ToWord(c) == Power(Bits.Pow2(k))
    ensures ToWord(d) == Power(Bits.Pow2(k + 1))
  {
    hide ToWord, Power, Square, Mul, Bits.Pow2;
    var n := Bits.Pow2(k);
    SquareWord(c);
    PowerAdd(n, n);
    Doubled(k);
  }

  /** The table of crc32.h is the table that make_crc_table builds. */
  lemma StoredTable()
    ensures PowersTable(seq(32, k requires 0 <= k < 32 => ToWord(Stored(k))))
  {
    hide ToWord, Power;
    forall k | 0 <= k < 32
      ensures ToWord(Stored(k)) == Power(Bits.Pow2(k))
    {
      StoredPower(k);
    }
  }

  /** x^(2^32) is x modulo the CRC polynomial. */
  lemma PowerOf32()
    ensures Power(Bits.Pow2(32)) == Power(1)
  {
    hide ToWord, Power, Square, Bits.Pow2;
    StoredPower(31);
    SquareNext(31);
    SquareIsPower(Stored(31), Stored(0), 31);
    FirstPower();
  }

  /** So the table's index may wrap around. */
  lemma {:induction false} PowerWraps(k: nat)
    ensures Power(Bits.Pow2(k)) == Power(Bits.Pow2(k % 32))
  {
    hide Power, Mul, Bits.Pow2;
    if k >= 32 {
      var m, n := Bits.Pow2(k - 1), Bits.Pow2((k - 1) % 32);
      PowerWraps(k - 1);
      PowerAdd(m, m);
      PowerAdd(n, n);
      Doubled(k - 1);
      Doubled((k - 1) % 32);
      PowerOf32();
      Doubled(0);
      NextIndex(k);
    }
  }

  lemma NextIndex(k: nat)
    requires k > 0
    ensures k % 32 == if (k - 1) % 32 == 31 then 0 else (k - 1) % 32 + 1
  {
  }

  /** x2nmodp: x^(n * 2^k), for all n and k. */
  method X2nModP(t: seq<Word>, n0: nat, k0: nat) returns (p: Word)
    requires PowersTable(t)
    ensures p == Power(n0 * Bits.Pow2(k0))
  {
    hide Mul, X, Bits.Pow2, Power;
    p := One();
    PowerNone();
    var n: nat, k: nat := n0, k0;
    ghost var done: nat := 0;
    ghost var total := n0 * Bits.Pow2(k0);
    while n != 0
      invariant p == Power(done) && done + n * Bits.Pow2(k) == total
      decreases n
    {
      ghost var w := Bits.Pow2(k);
      PowerWraps(k);
      HalfOf(n, w);
      Doubled(k);
      if n % 2 == 1 {
        PowerNotZero(w);
        PowerAdd(w, done);
        p := MultModP(t[k % 32], p);
        done := done + w;
      }
      n := n / 2;
      k := k + 1;
    }
  }

  /** What is left of n in x2nmodp after k turns; the shift of a negative number rounds
      down. */
  function Halved(n: int, k: nat): int {
    if k == 0 then n else Halved(n, k - 1) / 2
  }

  /** The loop of x2nmodp ends if and only if n is not negative: the type of its parameter
      admits lengths on which it never does. */
  lemma EndsUnlessNegative(n: int)
    ensures (exists k: nat :: Halved(n, k) == 0) <==> n >= 0
  {
    if n < 0 {
      forall k: nat
        ensures Halved(n, k) < 0
      {
        StaysNegative(n, k);
      }
    } else {
      ReachesZero(n, n);
    }
  }

  lemma {:induction false} StaysNegative(n: int, k: nat)
    requires n < 0
    ensures Halved(n, k) < 0
  {
    if k > 0 {
      StaysNegative(n, k - 1);
    }
  }

  lemma {:induction false} ReachesZero(n: nat, k: nat)
    ensures 0 <= Halved(n, k) && (Halved(n, k) == 0 || Halved(n, k) + k <= n)
  {
    if k > 0 {
      ReachesZero(n, k - 1);
    }
  }

  lemma PowerNone()
    ensures Power(0) == One()
  {
  }

  lemma HalfOf(n: nat, w: nat)
    ensures n * w == (n % 2) * w + (n / 2) * (2 * w)
  {
    assert n == n % 2 + 2 * (n / 2);
    Bits.MulAdd(w, n % 2, 2 * (n / 2));
    Bits.MulAssoc(w, 2, n / 2);
  }
}
