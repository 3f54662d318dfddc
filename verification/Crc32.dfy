/** The table-driven CRC of bootstrap/hboot/crc32.c against the bit-at-a-time CRC of section 8 of RFC 1952,
    and the error bursts it is certain to detect. */
module Crc32 {

  /** One step of the reflected shift register with the polynomial 0xedb88320. */
  function Shift(c: bv32): bv32 {
    if c & 1 == 1 then (c >> 1) ^ 0xedb8_8320 else c >> 1
  }

  function ShiftTimes(c: bv32, n: nat): bv32
    decreases n
  {
    if n == 0 then c else ShiftTimes(Shift(c), n - 1)
  }

  // ---------------------------------------------------------------- the table

  function Row0(i: bv32): bv32
    requires 0x00 <= i <= 0x0f
  {
    match i
    case 0x00 => 0x0000_0000 case 0x01 => 0x7707_3096 case 0x02 => 0xee0e_612c case 0x03 => 0x9909_51ba
    case 0x04 => 0x076d_c419 case 0x05 => 0x706a_f48f case 0x06 => 0xe963_a535 case 0x07 => 0x9e64_95a3
    case 0x08 => 0x0edb_8832 case 0x09 => 0x79dc_b8a4 case 0x0a => 0xe0d5_e91e case 0x0b => 0x97d2_d988
    case 0x0c => 0x09b6_4c2b case 0x0d => 0x7eb1_7cbd case 0x0e => 0xe7b8_2d07 case _ => 0x90bf_1d91
  }

  function Row1(i: bv32): bv32
    requires 0x10 <= i <= 0x1f
  {
    match i
    case 0x10 => 0x1db7_1064 case 0x11 => 0x6ab0_20f2 case 0x12 => 0xf3b9_7148 case 0x13 => 0x84be_41de
    case 0x14 => 0x1ada_d47d case 0x15 => 0x6ddd_e4eb case 0x16 => 0xf4d4_b551 case 0x17 => 0x83d3_85c7
    case 0x18 => 0x136c_9856 case 0x19 => 0x646b_a8c0 case 0x1a => 0xfd62_f97a case 0x1b => 0x8a65_c9ec
    case 0x1c => 0x1401_5c4f case 0x1d => 0x6306_6cd9 case 0x1e => 0xfa0f_3d63 case _ => 0x8d08_0df5
  }

  function Row2(i: bv32): bv32
    requires 0x20 <= i <= 0x2f
  {
    match i
    case 0x20 => 0x3b6e_20c8 case 0x21 => 0x4c69_105e case 0x22 => 0xd560_41e4 case 0x23 => 0xa267_7172
    case 0x24 => 0x3c03_e4d1 case 0x25 => 0x4b04_d447 case 0x26 => 0xd20d_85fd case 0x27 => 0xa50a_b56b
    case 0x28 => 0x35b5_a8fa case 0x29 => 0x42b2_986c case 0x2a => 0xdbbb_c9d6 case 0x2b => 0xacbc_f940
    case 0x2c => 0x32d8_6ce3 case 0x2d => 0x45df_5c75 case 0x2e => 0xdcd6_0dcf case _ => 0xabd1_3d59
  }

  function Row3(i: bv32): bv32
    requires 0x30 <= i <= 0x3f
  {
    match i
    case 0x30 => 0x26d9_30ac case 0x31 => 0x51de_003a case 0x32 => 0xc8d7_5180 case 0x33 => 0xbfd0_6116
    case 0x34 => 0x21b4_f4b5 case 0x35 => 0x56b3_c423 case 0x36 => 0xcfba_9599 case 0x37 => 0xb8bd_a50f
    case 0x38 => 0x2802_b89e case 0x39 => 0x5f05_8808 case 0x3a => 0xc60c_d9b2 case 0x3b => 0xb10b_e924
    case 0x3c => 0x2f6f_7c87 case 0x3d => 0x5868_4c11 case 0x3e => 0xc161_1dab case _ => 0xb666_2d3d
  }

  function Row4(i: bv32): bv32
    requires 0x40 <= i <= 0x4f
  {
    match i
    case 0x40 => 0x76dc_4190 case 0x41 => 0x01db_7106 case 0x42 => 0x98d2_20bc case 0x43 => 0xefd5_102a
    case 0x44 => 0x71b1_8589 case 0x45 => 0x06b6_b51f case 0x46 => 0x9fbf_e4a5 case 0x47 => 0xe8b8_d433
    case 0x48 => 0x7807_c9a2 case 0x49 => 0x0f00_f934 case 0x4a => 0x9609_a88e case 0x4b => 0xe10e_9818
    case 0x4c => 0x7f6a_0dbb case 0x4d => 0x086d_3d2d case 0x4e => 0x9164_6c97 case _ => 0xe663_5c01
  }

  function Row5(i: bv32): bv32
    requires 0x50 <= i <= 0x5f
  {
    match i
    case 0x50 => 0x6b6b_51f4 case 0x51 => 0x1c6c_6162 case 0x52 => 0x8565_30d8 case 0x53 => 0xf262_004e
    case 0x54 => 0x6c06_95ed case 0x55 => 0x1b01_a57b case 0x56 => 0x8208_f4c1 case 0x57 => 0xf50f_c457
    case 0x58 => 0x65b0_d9c6 case 0x59 => 0x12b7_e950 case 0x5a => 0x8bbe_b8ea case 0x5b => 0xfcb9_887c
    case 0x5c => 0x62dd_1ddf case 0x5d => 0x15da_2d49 case 0x5e => 0x8cd3_7cf3 case _ => 0xfbd4_4c65
  }

  function Row6(i: bv32): bv32
    requires 0x60 <= i <= 0x6f
  {
    match i
    case 0x60 => 0x4db2_6158 case 0x61 => 0x3ab5_51ce case 0x62 => 0xa3bc_0074 case 0x63 => 0xd4bb_30e2
    case 0x64 => 0x4adf_a541 case 0x65 => 0x3dd8_95d7 case 0x66 => 0xa4d1_c46d case 0x67 => 0xd3d6_f4fb
    case 0x68 => 0x4369_e96a case 0x69 => 0x346e_d9fc case 0x6a => 0xad67_8846 case 0x6b => 0xda60_b8d0
    case 0x6c => 0x4404_2d73 case 0x6d => 0x3303_1de5 case 0x6e => 0xaa0a_4c5f case _ => 0xdd0d_7cc9
  }

  function Row7(i: bv32): bv32
    requires 0x70 <= i <= 0x7f
  {
    match i
    case 0x70 => 0x5005_713c case 0x71 => 0x2702_41aa case 0x72 => 0xbe0b_1010 case 0x73 => 0xc90c_2086
    case 0x74 => 0x5768_b525 case 0x75 => 0x206f_85b3 case 0x76 => 0xb966_d409 case 0x77 => 0xce61_e49f
    case 0x78 => 0x5ede_f90e case 0x79 => 0x29d9_c998 case 0x7a => 0xb0d0_9822 case 0x7b => 0xc7d7_a8b4
    case 0x7c => 0x59b3_3d17 case 0x7d => 0x2eb4_0d81 case 0x7e => 0xb7bd_5c3b case _ => 0xc0ba_6cad
  }

  function Row8(i: bv32): bv32
    requires 0x80 <= i <= 0x8f
  {
    match i
    case 0x80 => 0xedb8_8320 case 0x81 => 0x9abf_b3b6 case 0x82 => 0x03b6_e20c case 0x83 => 0x74b1_d29a
    case 0x84 => 0xead5_4739 case 0x85 => 0x9dd2_77af case 0x86 => 0x04db_2615 case 0x87 => 0x73dc_1683
    case 0x88 => 0xe363_0b12 case 0x89 => 0x9464_3b84 case 0x8a => 0x0d6d_6a3e case 0x8b => 0x7a6a_5aa8
    case 0x8c => 0xe40e_cf0b case 0x8d => 0x9309_ff9d case 0x8e => 0x0a00_ae27 case _ => 0x7d07_9eb1
  }

  function Row9(i: bv32): bv32
    requires 0x90 <= i <= 0x9f
  {
    match i
    case 0x90 => 0xf00f_9344 case 0x91 => 0x8708_a3d2 case 0x92 => 0x1e01_f268 case 0x93 => 0x6906_c2fe
    case 0x94 => 0xf762_575d case 0x95 => 0x8065_67cb case 0x96 => 0x196c_3671 case 0x97 => 0x6e6b_06e7
    case 0x98 => 0xfed4_1b76 case 0x99 => 0x89d3_2be0 case 0x9a => 0x10da_7a5a case 0x9b => 0x67dd_4acc
    case 0x9c => 0xf9b9_df6f case 0x9d => 0x8ebe_eff9 case 0x9e => 0x17b7_be43 case _ => 0x60b0_8ed5
  }

  function RowA(i: bv32): bv32
    requires 0xa0 <= i <= 0xaf
  {
    match i
    case 0xa0 => 0xd6d6_a3e8 case 0xa1 => 0xa1d1_937e case 0xa2 => 0x38d8_c2c4 case 0xa3 => 0x4fdf_f252
    case 0xa4 => 0xd1bb_67f1 case 0xa5 => 0xa6bc_5767 case 0xa6 => 0x3fb5_06dd case 0xa7 => 0x48b2_364b
    case 0xa8 => 0xd80d_2bda case 0xa9 => 0xaf0a_1b4c case 0xaa => 0x3603_4af6 case 0xab => 0x4104_7a60
    case 0xac => 0xdf60_efc3 case 0xad => 0xa867_df55 case 0xae => 0x316e_8eef case _ => 0x4669_be79
  }

  function RowB(i: bv32): bv32
    requires 0xb0 <= i <= 0xbf
  {
    match i
    case 0xb0 => 0xcb61_b38c case 0xb1 => 0xbc66_831a case 0xb2 => 0x256f_d2a0 case 0xb3 => 0x5268_e236
    case 0xb4 => 0xcc0c_7795 case 0xb5 => 0xbb0b_4703 case 0xb6 => 0x2202_16b9 case 0xb7 => 0x5505_262f
    case 0xb8 => 0xc5ba_3bbe case 0xb9 => 0xb2bd_0b28 case 0xba => 0x2bb4_5a92 case 0xbb => 0x5cb3_6a04
    case 0xbc => 0xc2d7_ffa7 case 0xbd => 0xb5d0_cf31 case 0xbe => 0x2cd9_9e8b case _ => 0x5bde_ae1d
  }

  function RowC(i: bv32): bv32
    requires 0xc0 <= i <= 0xcf
  {
    match i
    case 0xc0 => 0x9b64_c2b0 case 0xc1 => 0xec63_f226 case 0xc2 => 0x756a_a39c case 0xc3 => 0x026d_930a
    case 0xc4 => 0x9c09_06a9 case 0xc5 => 0xeb0e_363f case 0xc6 => 0x7207_6785 case 0xc7 => 0x0500_5713
    case 0xc8 => 0x95bf_4a82 case 0xc9 => 0xe2b8_7a14 case 0xca => 0x7bb1_2bae case 0xcb => 0x0cb6_1b38
    case 0xcc => 0x92d2_8e9b case 0xcd => 0xe5d5_be0d case 0xce => 0x7cdc_efb7 case _ => 0x0bdb_df21
  }

  function RowD(i: bv32): bv32
    requires 0xd0 <= i <= 0xdf
  {
    match i
    case 0xd0 => 0x86d3_d2d4 case 0xd1 => 0xf1d4_e242 case 0xd2 => 0x68dd_b3f8 case 0xd3 => 0x1fda_836e
    case 0xd4 => 0x81be_16cd case 0xd5 => 0xf6b9_265b case 0xd6 => 0x6fb0_77e1 case 0xd7 => 0x18b7_4777
    case 0xd8 => 0x8808_5ae6 case 0xd9 => 0xff0f_6a70 case 0xda => 0x6606_3bca case 0xdb => 0x1101_0b5c
    case 0xdc => 0x8f65_9eff case 0xdd => 0xf862_ae69 case 0xde => 0x616b_ffd3 case _ => 0x166c_cf45
  }

  function RowE(i: bv32): bv32
    requires 0xe0 <= i <= 0xef
  {
    match i
    case 0xe0 => 0xa00a_e278 case 0xe1 => 0xd70d_d2ee case 0xe2 => 0x4e04_8354 case 0xe3 => 0x3903_b3c2
    case 0xe4 => 0xa767_2661 case 0xe5 => 0xd060_16f7 case 0xe6 => 0x4969_474d case 0xe7 => 0x3e6e_77db
    case 0xe8 => 0xaed1_6a4a case 0xe9 => 0xd9d6_5adc case 0xea => 0x40df_0b66 case 0xeb => 0x37d8_3bf0
    case 0xec => 0xa9bc_ae53 case 0xed => 0xdebb_9ec5 case 0xee => 0x47b2_cf7f case _ => 0x30b5_ffe9
  }

  function RowF(i: bv32): bv32
    requires 0xf0 <= i <= 0xff
  {
    match i
    case 0xf0 => 0xbdbd_f21c case 0xf1 => 0xcaba_c28a case 0xf2 => 0x53b3_9330 case 0xf3 => 0x24b4_a3a6
    case 0xf4 => 0xbad0_3605 case 0xf5 => 0xcdd7_0693 case 0xf6 => 0x54de_5729 case 0xf7 => 0x23d9_67bf
    case 0xf8 => 0xb366_7a2e case 0xf9 => 0xc461_4ab8 case 0xfa => 0x5d68_1b02 case 0xfb => 0x2a6f_2b94
    case 0xfc => 0xb40b_be37 case 0xfd => 0xc30c_8ea1 case 0xfe => 0x5a05_df1b case _ => 0x2d02_ef8d
  }

  function Table(i: bv32): bv32
    requires i <= 0xff
  {
    if i <= 0x0f then Row0(i) else if i <= 0x1f then Row1(i)
    else if i <= 0x2f then Row2(i) else if i <= 0x3f then Row3(i)
    else if i <= 0x4f then Row4(i) else if i <= 0x5f then Row5(i)
    else if i <= 0x6f then Row6(i) else if i <= 0x7f then Row7(i)
    else if i <= 0x8f then Row8(i) else if i <= 0x9f then Row9(i)
    else if i <= 0xaf then RowA(i) else if i <= 0xbf then RowB(i)
    else if i <= 0xcf then RowC(i) else if i <= 0xdf then RowD(i)
    else if i <= 0xef then RowE(i) else RowF(i)
  }

  lemma Row0IsEightShifts(i: bv32)
    requires 0x00 <= i <= 0x0f
    ensures Row0(i) == ShiftTimes(i, 8)
  {
    match i {
      case 0x00 => case 0x01 => case 0x02 => case 0x03 => case 0x04 => case 0x05 => case 0x06 => case 0x07 =>
      case 0x08 => case 0x09 => case 0x0a => case 0x0b => case 0x0c => case 0x0d => case 0x0e =>
      case _ => assert i == 0x0f;
    }
  }

  lemma Row1IsEightShifts(i: bv32)
    requires 0x10 <= i <= 0x1f
    ensures Row1(i) == ShiftTimes(i, 8)
  {
    match i {
      case 0x10 => case 0x11 => case 0x12 => case 0x13 => case 0x14 => case 0x15 => case 0x16 => case 0x17 =>
      case 0x18 => case 0x19 => case 0x1a => case 0x1b => case 0x1c => case 0x1d => case 0x1e =>
      case _ => assert i == 0x1f;
    }
  }

  lemma Row2IsEightShifts(i: bv32)
    requires 0x20 <= i <= 0x2f
    ensures Row2(i) == ShiftTimes(i, 8)
  {
    match i {
      case 0x20 => case 0x21 => case 0x22 => case 0x23 => case 0x24 => case 0x25 => case 0x26 => case 0x27 =>
      case 0x28 => case 0x29 => case 0x2a => case 0x2b => case 0x2c => case 0x2d => case 0x2e =>
      case _ => assert i == 0x2f;
    }
  }

  lemma Row3IsEightShifts(i: bv32)
    requires 0x30 <= i <= 0x3f
    ensures Row3(i) == ShiftTimes(i, 8)
  {
    match i {
      case 0x30 => case 0x31 => case 0x32 => case 0x33 => case 0x34 => case 0x35 => case 0x36 => case 0x37 =>
      case 0x38 => case 0x39 => case 0x3a => case 0x3b => case 0x3c => case 0x3d => case 0x3e =>
      case _ => assert i == 0x3f;
    }
  }

  lemma Row4IsEightShifts(i: bv32)
    requires 0x40 <= i <= 0x4f
    ensures Row4(i) == ShiftTimes(i, 8)
  {
    match i {
      case 0x40 => case 0x41 => case 0x42 => case 0x43 => case 0x44 => case 0x45 => case 0x46 => case 0x47 =>
      case 0x48 => case 0x49 => case 0x4a => case 0x4b => case 0x4c => case 0x4d => case 0x4e =>
      case _ => assert i == 0x4f;
    }
  }

  lemma Row5IsEightShifts(i: bv32)
    requires 0x50 <= i <= 0x5f
    ensures Row5(i) == ShiftTimes(i, 8)
  {
    match i {
      case 0x50 => case 0x51 => case 0x52 => case 0x53 => case 0x54 => case 0x55 => case 0x56 => case 0x57 =>
      case 0x58 => case 0x59 => case 0x5a => case 0x5b => case 0x5c => case 0x5d => case 0x5e =>
      case _ => assert i == 0x5f;
    }
  }

  lemma Row6IsEightShifts(i: bv32)
    requires 0x60 <= i <= 0x6f
    ensures Row6(i) == ShiftTimes(i, 8)
  {
    match i {
      case 0x60 => case 0x61 => case 0x62 => case 0x63 => case 0x64 => case 0x65 => case 0x66 => case 0x67 =>
      case 0x68 => case 0x69 => case 0x6a => case 0x6b => case 0x6c => case 0x6d => case 0x6e =>
      case _ => assert i == 0x6f;
    }
  }

  lemma Row7IsEightShifts(i: bv32)
    requires 0x70 <= i <= 0x7f
    ensures Row7(i) == ShiftTimes(i, 8)
  {
    match i {
      case 0x70 => case 0x71 => case 0x72 => case 0x73 => case 0x74 => case 0x75 => case 0x76 => case 0x77 =>
      case 0x78 => case 0x79 => case 0x7a => case 0x7b => case 0x7c => case 0x7d => case 0x7e =>
      case _ => assert i == 0x7f;
    }
  }

  lemma Row8IsEightShifts(i: bv32)
    requires 0x80 <= i <= 0x8f
    ensures Row8(i) == ShiftTimes(i, 8)
  {
    match i {
      case 0x80 => case 0x81 => case 0x82 => case 0x83 => case 0x84 => case 0x85 => case 0x86 => case 0x87 =>
      case 0x88 => case 0x89 => case 0x8a => case 0x8b => case 0x8c => case 0x8d => case 0x8e =>
      case _ => assert i == 0x8f;
    }
  }

  lemma Row9IsEightShifts(i: bv32)
    requires 0x90 <= i <= 0x9f
    ensures Row9(i) == ShiftTimes(i, 8)
  {
    match i {
      case 0x90 => case 0x91 => case 0x92 => case 0x93 => case 0x94 => case 0x95 => case 0x96 => case 0x97 =>
      case 0x98 => case 0x99 => case 0x9a => case 0x9b => case 0x9c => case 0x9d => case 0x9e =>
      case _ => assert i == 0x9f;
    }
  }

  lemma RowAIsEightShifts(i: bv32)
    requires 0xa0 <= i <= 0xaf
    ensures RowA(i) == ShiftTimes(i, 8)
  {
    match i {
      case 0xa0 => case 0xa1 => case 0xa2 => case 0xa3 => case 0xa4 => case 0xa5 => case 0xa6 => case 0xa7 =>
      case 0xa8 => case 0xa9 => case 0xaa => case 0xab => case 0xac => case 0xad => case 0xae =>
      case _ => assert i == 0xaf;
    }
  }

  lemma RowBIsEightShifts(i: bv32)
    requires 0xb0 <= i <= 0xbf
    ensures RowB(i) == ShiftTimes(i, 8)
  {
    match i {
      case 0xb0 => case 0xb1 => case 0xb2 => case 0xb3 => case 0xb4 => case 0xb5 => case 0xb6 => case 0xb7 =>
      case 0xb8 => case 0xb9 => case 0xba => case 0xbb => case 0xbc => case 0xbd => case 0xbe =>
      case _ => assert i == 0xbf;
    }
  }

  lemma RowCIsEightShifts(i: bv32)
    requires 0xc0 <= i <= 0xcf
    ensures RowC(i) == ShiftTimes(i, 8)
  {
    match i {
      case 0xc0 => case 0xc1 => case 0xc2 => case 0xc3 => case 0xc4 => case 0xc5 => case 0xc6 => case 0xc7 =>
      case 0xc8 => case 0xc9 => case 0xca => case 0xcb => case 0xcc => case 0xcd => case 0xce =>
      case _ => assert i == 0xcf;
    }
  }

  lemma RowDIsEightShifts(i: bv32)
    requires 0xd0 <= i <= 0xdf
    ensures RowD(i) == ShiftTimes(i, 8)
  {
    match i {
      case 0xd0 => case 0xd1 => case 0xd2 => case 0xd3 => case 0xd4 => case 0xd5 => case 0xd6 => case 0xd7 =>
      case 0xd8 => case 0xd9 => case 0xda => case 0xdb => case 0xdc => case 0xdd => case 0xde =>
      case _ => assert i == 0xdf;
    }
  }

  lemma RowEIsEightShifts(i: bv32)
    requires 0xe0 <= i <= 0xef
    ensures RowE(i) == ShiftTimes(i, 8)
  {
    match i {
      case 0xe0 => case 0xe1 => case 0xe2 => case 0xe3 => case 0xe4 => case 0xe5 => case 0xe6 => case 0xe7 =>
      case 0xe8 => case 0xe9 => case 0xea => case 0xeb => case 0xec => case 0xed => case 0xee =>
      case _ => assert i == 0xef;
    }
  }

  lemma RowFIsEightShifts(i: bv32)
    requires 0xf0 <= i <= 0xff
    ensures RowF(i) == ShiftTimes(i, 8)
  {
    match i {
      case 0xf0 => case 0xf1 => case 0xf2 => case 0xf3 => case 0xf4 => case 0xf5 => case 0xf6 => case 0xf7 =>
      case 0xf8 => case 0xf9 => case 0xfa => case 0xfb => case 0xfc => case 0xfd => case 0xfe =>
      case _ => assert i == 0xff;
    }
  }

  /** Every entry is the result of shifting its index through the register eight times. */
  lemma TableIsEightShifts(i: bv32)
    requires i <= 0xff
    ensures Table(i) == ShiftTimes(i, 8)
  {
    if i <= 0x0f {
      Row0IsEightShifts(i);
    } else if i <= 0x1f {
      Row1IsEightShifts(i);
    } else if i <= 0x2f {
      Row2IsEightShifts(i);
    } else if i <= 0x3f {
      Row3IsEightShifts(i);
    } else if i <= 0x4f {
      Row4IsEightShifts(i);
    } else if i <= 0x5f {
      Row5IsEightShifts(i);
    } else if i <= 0x6f {
      Row6IsEightShifts(i);
    } else if i <= 0x7f {
      Row7IsEightShifts(i);
    } else if i <= 0x8f {
      Row8IsEightShifts(i);
    } else if i <= 0x9f {
      Row9IsEightShifts(i);
    } else if i <= 0xaf {
      RowAIsEightShifts(i);
    } else if i <= 0xbf {
      RowBIsEightShifts(i);
    } else if i <= 0xcf {
      RowCIsEightShifts(i);
    } else if i <= 0xdf {
      RowDIsEightShifts(i);
    } else if i <= 0xef {
      RowEIsEightShifts(i);
    } else {
      RowFIsEightShifts(i);
    }
  }

  // ---------------------------------------------------------------- the register

  // Word operations under a name.  Proofs that compose several of them hide what they compute, so that
  // the solver works with the laws below and not with 32 bits at a time.
  function Xor(a: bv32, b: bv32): bv32 { a ^ b }
  function Up(w: bv32): bv32 { w << 1 }
  function Low(x: bv32): (l: bv32)
    ensures l <= 0xff
  {
    x & 0xff
  }
  function High(x: bv32): bv32 { x >> 8 }
  predicate Top(w: bv32) { w > 0x7fff_ffff }

  function UpTimes(w: bv32, n: nat): bv32 {
    if n == 0 then w else Up(UpTimes(w, n - 1))
  }

  lemma ShiftedOut(x: bv32, w: bv32)
    requires w <= 0x7fff_ffff
    ensures (x ^ (w << 1)) & 1 == x & 1
    ensures (x ^ (w << 1)) >> 1 == (x >> 1) ^ w
  {
  }

  lemma XorSwap(a: bv32, b: bv32, c: bv32)
    ensures (a ^ b) ^ c == (a ^ c) ^ b
  {
  }

  lemma ShiftOdd(x: bv32, w: bv32)
    requires !Top(w) && x & 1 == 1
    ensures Shift(Xor(x, Up(w))) == Xor(Shift(x), w)
  {
    ShiftedOut(x, w);
    XorSwap(x >> 1, w, 0xedb8_8320);
  }

  lemma ShiftEven(x: bv32, w: bv32)
    requires !Top(w) && x & 1 != 1
    ensures Shift(Xor(x, Up(w))) == Xor(Shift(x), w)
  {
    ShiftedOut(x, w);
  }

  /** A shift moves what lies above the lowest bit down by one. */
  lemma ShiftAbove(x: bv32, w: bv32)
    requires !Top(w)
    ensures Shift(Xor(x, Up(w))) == Xor(Shift(x), w)
  {
    hide *;
    if x & 1 == 1 {
      ShiftOdd(x, w);
    } else {
      ShiftEven(x, w);
    }
  }

  lemma {:induction false} ShiftTimesAbove(x: bv32, w: bv32, n: nat)
    requires forall k :: 0 <= k < n ==> !Top(UpTimes(w, k))
    ensures ShiftTimes(Xor(x, UpTimes(w, n)), n) == Xor(ShiftTimes(x, n), w)
    decreases n
  {
    hide Shift, Xor, Up, Top;
    if n > 0 {
      ShiftAbove(x, UpTimes(w, n - 1));
      ShiftTimesAbove(Shift(x), w, n - 1);
    }
  }

  lemma LowAndHigh(x: bv32, h: bv32, u: bv32)
    requires h == High(x) && u == h << 8
    ensures x == Xor(Low(x), u) && h <= 0x00ff_ffff
  {
  }

  lemma UpOne(w: bv32, u: bv32, bound: bv32)
    requires w <= bound && bound <= 0x7fff_ffff && u == Up(w)
    ensures u <= (bound << 1) | 1
  {
  }

  /** A number below 2^24 can be moved up eight times without losing bits. */
  lemma UpEight(h: bv32, n: nat, u: bv32)
    requires h <= 0x00ff_ffff && n == 8 && u == h << 8
    ensures UpTimes(h, n) == u
    ensures forall k :: 0 <= k < n ==> !Top(UpTimes(h, k))
  {
    var u0 := UpTimes(h, 0); var u1 := UpTimes(h, 1); var u2 := UpTimes(h, 2); var u3 := UpTimes(h, 3);
    var u4 := UpTimes(h, 4); var u5 := UpTimes(h, 5); var u6 := UpTimes(h, 6); var u7 := UpTimes(h, 7);
    UpOne(u0, u1, 0x00ff_ffff);
    UpOne(u1, u2, 0x01ff_ffff);
    UpOne(u2, u3, 0x03ff_ffff);
    UpOne(u3, u4, 0x07ff_ffff);
    UpOne(u4, u5, 0x0fff_ffff);
    UpOne(u5, u6, 0x1fff_ffff);
    UpOne(u6, u7, 0x3fff_ffff);
  }

  /** Eight shifts act on the low byte and move the rest down. */
  lemma EightShiftsSplit(x: bv32, n: nat)
    requires n == 8
    ensures ShiftTimes(x, n) == Xor(ShiftTimes(Low(x), n), High(x))
  {
    hide *;
    var h := High(x);
    var u := h << 8;
    LowAndHigh(x, h, u);
    UpEight(h, n, u);
    ShiftTimesAbove(Low(x), h, n);
  }

  // ---------------------------------------------------------------- crc32.c

  /** The body of the loop of crc32_update. */
  function Step(c: bv32, b: bv8): bv32 {
    Xor(Table(Low(Xor(c, b as bv32))), High(c))
  }

  function Update(c: bv32, data: seq<bv8>): bv32
    decreases data
  {
    if data == [] then c else Update(Step(c, data[0]), data[1..])
  }

  function Crc(data: seq<bv8>): bv32 {
    Update(0xffff_ffff, data) ^ 0xffff_ffff
  }

  /** crc32_update; `data` and `size` together are the sequence. */
  method CrcUpdate(ctx: bv32, data: seq<bv8>) returns (c: bv32)
    ensures c == Update(ctx, data)
  {
    hide Xor, Table, Low, High;
    c := ctx;
    var i := 0;
    assert data[0..] == data;
    while i < |data|
      invariant 0 <= i <= |data|
      invariant Update(c, data[i..]) == Update(ctx, data)
    {
      assert data[i..][0] == data[i] && data[i..][1..] == data[i + 1..];
      c := Xor(Table(Low(Xor(c, data[i] as bv32))), High(c));
      i := i + 1;
    }
  }

  /** crc32 */
  method ComputeCrc(data: seq<bv8>) returns (c: bv32)
    ensures c == Crc(data)
  {
    hide Update;
    c := 0xffff_ffff;
    c := CrcUpdate(c, data);
    c := c ^ 0xffff_ffff;
  }

  /** Feeding a message in two pieces is feeding it in one. */
  lemma {:induction false} UpdateConcat(c: bv32, a: seq<bv8>, b: seq<bv8>)
    ensures Update(c, a + b) == Update(Update(c, a), b)
    decreases a
  {
    if a == [] {
      assert a + b == b;
    } else {
      assert (a + b)[0] == a[0] && (a + b)[1..] == a[1..] + b;
      UpdateConcat(Step(c, a[0]), a[1..], b);
    }
  }

  lemma HighOfXor(c: bv32, b: bv32)
    requires b <= 0xff
    ensures High(Xor(c, b)) == High(c)
  {
  }

  lemma ByteBound(b: bv8)
    ensures b as bv32 <= 0xff
  {
  }

  /** One table step is eight shifts of the register with the byte added in. */
  lemma StepIsEightShifts(c: bv32, b: bv8, n: nat)
    requires n == 8
    ensures Step(c, b) == ShiftTimes(Xor(c, b as bv32), n)
  {
    hide Xor, Table, ShiftTimes, Low, High;
    ByteBound(b);
    HighOfXor(c, b as bv32);
    TableIsEightShifts(Low(Xor(c, b as bv32)));
    EightShiftsSplit(Xor(c, b as bv32), n);
  }

  // ---------------------------------------------------------------- one bit at a time

  /** The bits of a byte and of a message, least significant bit first. */
  function BitsFrom(b: bv8, n: nat): (bits: seq<bool>)
    ensures |bits| == n
  {
    if n == 0 then [] else [b & 1 == 1] + BitsFrom(b >> 1, n - 1)
  }

  function Bits(data: seq<bv8>): (bits: seq<bool>)
    ensures |bits| == 8 * |data|
  {
    if data == [] then [] else BitsFrom(data[0], 8) + Bits(data[1..])
  }

  function Bit(bit: bool): bv32 { if bit then 1 else 0 }

  function Feed(c: bv32, bit: bool): bv32 {
    Shift(Xor(c, Bit(bit)))
  }

  /** The CRC as a shift register that takes in one bit at a time. */
  function FeedAll(c: bv32, bits: seq<bool>): bv32
    decreases bits
  {
    if bits == [] then c else FeedAll(Feed(c, bits[0]), bits[1..])
  }

  lemma {:induction false} FeedConcat(c: bv32, a: seq<bool>, b: seq<bool>)
    ensures FeedAll(c, a + b) == FeedAll(FeedAll(c, a), b)
    decreases a
  {
    hide Feed;
    if a == [] {
      assert a + b == b;
    } else {
      assert (a + b)[0] == a[0] && (a + b)[1..] == a[1..] + b;
      FeedConcat(Feed(c, a[0]), a[1..], b);
    }
  }

  /** Bits as a number, the first bit least significant. */
  function Word(bits: seq<bool>): bv32 {
    if bits == [] then 0 else Xor(Bit(bits[0]), Up(Word(bits[1..])))
  }

  // The numbers below 2^n are those that have no bit outside the n lowest.
  function And(a: bv32, b: bv32): bv32 { a & b }
  function Grow(m: bv32): bv32 { (m << 1) | 1 }

  function Mask(n: nat): bv32 {
    if n == 0 then 0 else Grow(Mask(n - 1))
  }

  lemma GrowKeeps(a: bv32, b: bv32)
    requires And(a, b) == a
    ensures And(Grow(a), Grow(b)) == Grow(a)
  {
  }

  lemma GrowTakesOne(a: bv32, b: bv32)
    requires And(a, b) == a
    ensures And(Xor(1, Up(a)), Grow(b)) == Xor(1, Up(a))
  {
  }

  lemma GrowTakesZero(a: bv32, b: bv32)
    requires And(a, b) == a
    ensures And(Xor(0, Up(a)), Grow(b)) == Xor(0, Up(a))
  {
  }

  lemma AndTransitive(a: bv32, b: bv32, c: bv32)
    requires And(a, b) == a && And(b, c) == b
    ensures And(a, c) == a
  {
  }

  lemma AndSelf(a: bv32)
    ensures And(a, a) == a && And(0, a) == 0
  {
  }

  lemma {:induction false} MaskGrows(n: nat)
    ensures And(Mask(n), Mask(n + 1)) == Mask(n)
  {
    hide And, Grow;
    if n > 0 {
      MaskGrows(n - 1);
      GrowKeeps(Mask(n - 1), Mask(n));
    } else {
      AndSelf(Mask(1));
    }
  }

  lemma {:induction false} MaskBelow(n: nat, k: nat)
    requires n <= k
    ensures And(Mask(n), Mask(k)) == Mask(n)
    decreases k - n
  {
    hide And, Mask;
    AndSelf(Mask(n));
    if n < k {
      MaskGrows(n);
      MaskBelow(n + 1, k);
      AndTransitive(Mask(n), Mask(n + 1), Mask(k));
    }
  }

  lemma Mask31()
    ensures Mask(31) == 0x7fff_ffff
  {
    assert Mask(8) == 0xff;
    assert Mask(16) == 0xffff;
    assert Mask(24) == 0xff_ffff;
  }

  lemma NoTop(w: bv32)
    requires And(w, 0x7fff_ffff) == w
    ensures !Top(w)
  {
  }

  lemma {:induction false} WordFits(bits: seq<bool>)
    ensures And(Word(bits), Mask(|bits|)) == Word(bits)
  {
    hide And, Grow, Up, Xor;
    if bits == [] {
      AndSelf(Mask(0));
    } else {
      WordFits(bits[1..]);
      GrowTakesOne(Word(bits[1..]), Mask(|bits| - 1));
      GrowTakesZero(Word(bits[1..]), Mask(|bits| - 1));
    }
  }

  lemma WordBelow31(bits: seq<bool>)
    requires |bits| <= 31
    ensures !Top(Word(bits))
  {
    hide And, Mask, Word, Top;
    WordFits(bits);
    MaskBelow(|bits|, 31);
    Mask31();
    AndTransitive(Word(bits), Mask(|bits|), Mask(31));
    NoTop(Word(bits));
  }

  lemma XorLaws(a: bv32, b: bv32, c: bv32)
    ensures Xor(a, Xor(b, c)) == Xor(Xor(a, b), c)
    ensures Xor(a, 0) == a
  {
  }

  lemma XorCancels(a: bv32, b: bv32, c: bv32)
    requires Xor(a, b) == Xor(a, c) || Xor(b, a) == Xor(c, a)
    ensures b == c
  {
  }

  /** Up to 32 bits can be fed at once: add them to the register, then shift. */
  lemma {:induction false} FeedIsShift(c: bv32, bits: seq<bool>)
    requires |bits| <= 32
    ensures FeedAll(c, bits) == ShiftTimes(Xor(c, Word(bits)), |bits|)
    decreases bits
  {
    hide Xor, Up, Shift, Bit, Top;
    if bits == [] {
      XorLaws(c, 0, 0);
    } else {
      var w := Word(bits[1..]);
      WordBelow31(bits[1..]);
      XorLaws(c, Bit(bits[0]), Up(w));
      ShiftAbove(Xor(c, Bit(bits[0])), w);
      FeedIsShift(Feed(c, bits[0]), bits[1..]);
    }
  }

  // ---------------------------------------------------------------- the table CRC is the bitwise CRC

  lemma HalfByte(b: bv8)
    ensures Xor(Bit(b & 1 == 1), Up((b >> 1) as bv32)) == b as bv32
  {
    if b & 1 == 1 {
      assert 1 ^ (((b >> 1) as bv32) << 1) == b as bv32;
    } else {
      assert 0 ^ (((b >> 1) as bv32) << 1) == b as bv32;
    }
  }

  /** b has at most n bits. */
  predicate Narrow(b: bv8, n: nat)
    decreases n
  {
    if n == 0 then b == 0 else Narrow(b >> 1, n - 1)
  }

  lemma {:induction false} WordOfByte(b: bv8, n: nat)
    requires Narrow(b, n)
    ensures Word(BitsFrom(b, n)) == b as bv32
    decreases n
  {
    hide Xor, Up, Bit;
    if n > 0 {
      WordOfByte(b >> 1, n - 1);
      HalfByte(b);
      assert BitsFrom(b, n)[1..] == BitsFrom(b >> 1, n - 1);
    }
  }

  lemma BytesAreNarrow(b: bv8)
    ensures Narrow(b, 8)
  {
    assert b >> 1 >> 1 >> 1 >> 1 >> 1 >> 1 >> 1 >> 1 == 0;
  }

  lemma StepIsFeed(c: bv32, b: bv8, n: nat)
    requires n == 8
    ensures Step(c, b) == FeedAll(c, BitsFrom(b, n))
  {
    hide *;
    BytesAreNarrow(b);
    WordOfByte(b, n);
    FeedIsShift(c, BitsFrom(b, n));
    StepIsEightShifts(c, b, n);
  }

  /** For every message and register, the table-driven update is the bit-at-a-time update. */
  lemma {:induction false} TableCrcIsBitwise(c: bv32, data: seq<bv8>)
    ensures Update(c, data) == FeedAll(c, Bits(data))
    decreases data
  {
    hide Step, BitsFrom, Feed;
    if data != [] {
      StepIsFeed(c, data[0], 8);
      FeedConcat(c, BitsFrom(data[0], 8), Bits(data[1..]));
      TableCrcIsBitwise(Step(c, data[0]), data[1..]);
    }
  }

  /** The checksum of a message: the bits are fed to a register of ones, and the register is complemented. */
  lemma ChecksumIsBitwise(data: seq<bv8>)
    ensures Crc(data) == FeedAll(0xffff_ffff, Bits(data)) ^ 0xffff_ffff
  {
    hide Update, FeedAll, Bits;
    TableCrcIsBitwise(0xffff_ffff, data);
  }

  /** The usual check: the checksum of the text "123456789". */
  lemma CheckValue()
    ensures Crc([0x31, 0x32, 0x33, 0x34, 0x35, 0x36, 0x37, 0x38, 0x39]) == 0xcbf4_3926
  {
    hide Step;
    CheckFirst();
    CheckMiddle();
    CheckLast();
    var data: seq<bv8> := [0x31, 0x32, 0x33, 0x34, 0x35, 0x36, 0x37, 0x38, 0x39];
    assert data[0..][0] == 0x31 && data[0..][1..] == data[1..];
    assert data[1..][0] == 0x32 && data[1..][1..] == data[2..];
    assert data[2..][0] == 0x33 && data[2..][1..] == data[3..];
    assert data[3..][0] == 0x34 && data[3..][1..] == data[4..];
    assert data[4..][0] == 0x35 && data[4..][1..] == data[5..];
    assert data[5..][0] == 0x36 && data[5..][1..] == data[6..];
    assert data[6..][0] == 0x37 && data[6..][1..] == data[7..];
    assert data[7..][0] == 0x38 && data[7..][1..] == data[8..];
    assert data[8..][0] == 0x39 && data[8..][1..] == data[9..];
    assert Update(0x651f_2550, data[8..]) == 0x340b_c6d9;
    assert Update(0xaffc_9660, data[7..]) == 0x340b_c6d9;
    assert Update(0xf68d_2c9e, data[6..]) == 0x340b_c6d9;
    assert Update(0x340a_c5e3, data[5..]) == 0x340b_c6d9;
    assert Update(0x641c_1f5c, data[4..]) == 0x340b_c6d9;
    assert Update(0x77b7_9c2d, data[3..]) == 0x340b_c6d9;
    assert Update(0xb0ac_bb32, data[2..]) == 0x340b_c6d9;
    assert Update(0x7c23_1048, data[1..]) == 0x340b_c6d9;
    assert Update(0xffff_ffff, data[0..]) == 0x340b_c6d9;
    assert data[0..] == data;
  }

  lemma CheckFirst()
    ensures Step(0xffff_ffff, 0x31) == 0x7c23_1048
    ensures Step(0x7c23_1048, 0x32) == 0xb0ac_bb32
    ensures Step(0xb0ac_bb32, 0x33) == 0x77b7_9c2d
  {
    assert Low(Xor(0xffff_ffff, 0x31)) == 0xce && Table(0xce) == 0x7cdc_efb7;
    assert Low(Xor(0x7c23_1048, 0x32)) == 0x7a && Table(0x7a) == 0xb0d0_9822;
    assert Low(Xor(0xb0ac_bb32, 0x33)) == 0x01 && Table(0x01) == 0x7707_3096;
  }

  lemma CheckMiddle()
    ensures Step(0x77b7_9c2d, 0x34) == 0x641c_1f5c
    ensures Step(0x641c_1f5c, 0x35) == 0x340a_c5e3
    ensures Step(0x340a_c5e3, 0x36) == 0xf68d_2c9e
  {
    assert Low(Xor(0x77b7_9c2d, 0x34)) == 0x19 && Table(0x19) == 0x646b_a8c0;
    assert Low(Xor(0x641c_1f5c, 0x35)) == 0x69 && Table(0x69) == 0x346e_d9fc;
    assert Low(Xor(0x340a_c5e3, 0x36)) == 0xd5 && Table(0xd5) == 0xf6b9_265b;
  }

  lemma CheckLast()
    ensures Step(0xf68d_2c9e, 0x37) == 0xaffc_9660
    ensures Step(0xaffc_9660, 0x38) == 0x651f_2550
    ensures Step(0x651f_2550, 0x39) == 0x340b_c6d9
  {
    assert Low(Xor(0xf68d_2c9e, 0x37)) == 0xa9 && Table(0xa9) == 0xaf0a_1b4c;
    assert Low(Xor(0xaffc_9660, 0x38)) == 0x58 && Table(0x58) == 0x65b0_d9c6;
    assert Low(Xor(0x651f_2550, 0x39)) == 0x69 && Table(0x69) == 0x346e_d9fc;
  }

  // ---------------------------------------------------------------- what the CRC detects

  lemma ShiftInjective(x: bv32, y: bv32)
    requires Shift(x) == Shift(y)
    ensures x == y
  {
  }

  lemma {:induction false} ShiftTimesInjective(x: bv32, y: bv32, n: nat)
    requires ShiftTimes(x, n) == ShiftTimes(y, n)
    ensures x == y
    decreases n
  {
    hide Shift;
    if n > 0 {
      ShiftTimesInjective(Shift(x), Shift(y), n - 1);
      ShiftInjective(x, y);
    }
  }

  lemma {:induction false} FeedAllInjective(c: bv32, d: bv32, bits: seq<bool>)
    requires FeedAll(c, bits) == FeedAll(d, bits)
    ensures c == d
    decreases bits
  {
    hide Shift, Xor, Bit;
    if bits != [] {
      FeedAllInjective(Feed(c, bits[0]), Feed(d, bits[0]), bits[1..]);
      ShiftInjective(Xor(c, Bit(bits[0])), Xor(d, Bit(bits[0])));
      XorCancels(Bit(bits[0]), c, d);
    }
  }

  lemma UpInjective(a: bool, v: bv32, b: bool, w: bv32)
    requires !Top(v) && !Top(w) && Xor(Bit(a), Up(v)) == Xor(Bit(b), Up(w))
    ensures a == b && v == w
  {
  }

  lemma {:induction false} WordInjective(a: seq<bool>, b: seq<bool>)
    requires |a| == |b| <= 32 && Word(a) == Word(b)
    ensures a == b
  {
    hide Xor, Up, Bit, Top;
    if a != [] {
      WordBelow31(a[1..]);
      WordBelow31(b[1..]);
      UpInjective(a[0], Word(a[1..]), b[0], Word(b[1..]));
      WordInjective(a[1..], b[1..]);
      assert a == [a[0]] + a[1..] && b == [b[0]] + b[1..];
    }
  }

  /** From one register, different windows of at most 32 bits lead to different registers, and so do
      different registers whatever is fed behind them. */
  lemma WindowChangesRegister(c: bv32, before: seq<bool>, v: seq<bool>, w: seq<bool>, behind: seq<bool>)
    requires |v| == |w| <= 32 && v != w
    ensures FeedAll(c, before + v + behind) != FeedAll(c, before + w + behind)
  {
    hide *;
    var d := FeedAll(c, before);
    FeedConcat(c, before + v, behind);
    FeedConcat(c, before + w, behind);
    FeedConcat(c, before, v);
    FeedConcat(c, before, w);
    if FeedAll(c, before + v + behind) == FeedAll(c, before + w + behind) {
      FeedAllInjective(FeedAll(d, v), FeedAll(d, w), behind);
      FeedIsShift(d, v);
      FeedIsShift(d, w);
      ShiftTimesInjective(Xor(d, Word(v)), Xor(d, Word(w)), |v|);
      XorCancels(d, Word(v), Word(w));
      WordInjective(v, w);
      assert false;
    }
  }

  lemma ByteInjective(a: bv8, b: bv8)
    requires BitsFrom(a, 8) == BitsFrom(b, 8)
    ensures a == b
  {
    hide BitsFrom, Word;
    BytesAreNarrow(a);
    BytesAreNarrow(b);
    WordOfByte(a, 8);
    WordOfByte(b, 8);
  }

  lemma {:induction false} BitsInjective(a: seq<bv8>, b: seq<bv8>)
    requires |a| == |b| && Bits(a) == Bits(b)
    ensures a == b
  {
    hide BitsFrom;
    if a != [] {
      var x, y := BitsFrom(a[0], 8), BitsFrom(b[0], 8);
      assert Bits(a)[..8] == x && Bits(b)[..8] == y;
      assert Bits(a)[8..] == Bits(a[1..]) && Bits(b)[8..] == Bits(b[1..]);
      ByteInjective(a[0], b[0]);
      BitsInjective(a[1..], b[1..]);
      assert a == [a[0]] + a[1..] && b == [b[0]] + b[1..];
    }
  }

  /** The messages differ, but only inside the 32 bits from k on. */
  ghost predicate BurstAt(a: seq<bv8>, b: seq<bv8>, k: nat) {
    && |a| == |b| && a != b
    && forall i :: 0 <= i < 8 * |a| && (i < k || i >= k + 32) ==> Bits(a)[i] == Bits(b)[i]
  }

  /** Main theorem: an error burst of at most 32 bits anywhere in a message, on byte boundaries or not,
      always changes the CRC. */
  lemma BurstsAreDetected(a: seq<bv8>, b: seq<bv8>, k: nat)
    requires BurstAt(a, b, k)
    ensures Crc(a) != Crc(b)
  {
    hide Bits, Update, FeedAll;
    var x, y := Bits(a), Bits(b);
    var lo := if k < |x| then k else |x|;
    var hi := if k + 32 < |x| then k + 32 else |x|;
    assert x[..lo] == y[..lo] && x[hi..] == y[hi..];
    assert x == x[..lo] + x[lo..hi] + x[hi..];
    assert y == y[..lo] + y[lo..hi] + y[hi..];
    if x[lo..hi] == y[lo..hi] {
      BitsInjective(a, b);
      assert false;
    }
    WindowChangesRegister(0xffff_ffff, x[..lo], x[lo..hi], y[lo..hi], x[hi..]);
    TableCrcIsBitwise(0xffff_ffff, a);
    TableCrcIsBitwise(0xffff_ffff, b);
    if Crc(a) == Crc(b) {
      XorCancels(0xffff_ffff, Update(0xffff_ffff, a), Update(0xffff_ffff, b));
    }
  }
}
