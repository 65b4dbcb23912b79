/** The substitution tables of AES (aes_sbox and aes_inv_sbox in aes.c), row by row. */
module AesSbox {

  function Sbox(x: bv8): (r: bv8)
  {
    if x <= 0x0F then S0(x)
    else if x <= 0x1F then S1(x)
    else if x <= 0x2F then S2(x)
    else if x <= 0x3F then S3(x)
    else if x <= 0x4F then S4(x)
    else if x <= 0x5F then S5(x)
    else if x <= 0x6F then S6(x)
    else if x <= 0x7F then S7(x)
    else if x <= 0x8F then S8(x)
    else if x <= 0x9F then S9(x)
    else if x <= 0xAF then SA(x)
    else if x <= 0xBF then SB(x)
    else if x <= 0xCF then SC(x)
    else if x <= 0xDF then SD(x)
    else if x <= 0xEF then SE(x)
    else SF(x)
  }

  function S0(x: bv8): bv8
  {
    if x == 0x00 then 0x63 else if x == 0x01 then 0x7C else if x == 0x02 then 0x77 else if x == 0x03 then 0x7B else 
    if x == 0x04 then 0xF2 else if x == 0x05 then 0x6B else if x == 0x06 then 0x6F else if x == 0x07 then 0xC5 else 
    if x == 0x08 then 0x30 else if x == 0x09 then 0x01 else if x == 0x0A then 0x67 else if x == 0x0B then 0x2B else 
    if x == 0x0C then 0xFE else if x == 0x0D then 0xD7 else if x == 0x0E then 0xAB else 0x76
  }

  function S1(x: bv8): bv8
  {
    if x == 0x10 then 0xCA else if x == 0x11 then 0x82 else if x == 0x12 then 0xC9 else if x == 0x13 then 0x7D else 
    if x == 0x14 then 0xFA else if x == 0x15 then 0x59 else if x == 0x16 then 0x47 else if x == 0x17 then 0xF0 else 
    if x == 0x18 then 0xAD else if x == 0x19 then 0xD4 else if x == 0x1A then 0xA2 else if x == 0x1B then 0xAF else 
    if x == 0x1C then 0x9C else if x == 0x1D then 0xA4 else if x == 0x1E then 0x72 else 0xC0
  }

  function S2(x: bv8): bv8
  {
    if x == 0x20 then 0xB7 else if x == 0x21 then 0xFD else if x == 0x22 then 0x93 else if x == 0x23 then 0x26 else 
    if x == 0x24 then 0x36 else if x == 0x25 then 0x3F else if x == 0x26 then 0xF7 else if x == 0x27 then 0xCC else 
    if x == 0x28 then 0x34 else if x == 0x29 then 0xA5 else if x == 0x2A then 0xE5 else if x == 0x2B then 0xF1 else 
    if x == 0x2C then 0x71 else if x == 0x2D then 0xD8 else if x == 0x2E then 0x31 else 0x15
  }

  function S3(x: bv8): bv8
  {
    if x == 0x30 then 0x04 else if x == 0x31 then 0xC7 else if x == 0x32 then 0x23 else if x == 0x33 then 0xC3 else 
    if x == 0x34 then 0x18 else if x == 0x35 then 0x96 else if x == 0x36 then 0x05 else if x == 0x37 then 0x9A else 
    if x == 0x38 then 0x07 else if x == 0x39 then 0x12 else if x == 0x3A then 0x80 else if x == 0x3B then 0xE2 else 
    if x == 0x3C then 0xEB else if x == 0x3D then 0x27 else if x == 0x3E then 0xB2 else 0x75
  }

  function S4(x: bv8): bv8
  {
    if x == 0x40 then 0x09 else if x == 0x41 then 0x83 else if x == 0x42 then 0x2C else if x == 0x43 then 0x1A else 
    if x == 0x44 then 0x1B else if x == 0x45 then 0x6E else if x == 0x46 then 0x5A else if x == 0x47 then 0xA0 else 
    if x == 0x48 then 0x52 else if x == 0x49 then 0x3B else if x == 0x4A then 0xD6 else if x == 0x4B then 0xB3 else 
    if x == 0x4C then 0x29 else if x == 0x4D then 0xE3 else if x == 0x4E then 0x2F else 0x84
  }

  function S5(x: bv8): bv8
  {
    if x == 0x50 then 0x53 else if x == 0x51 then 0xD1 else if x == 0x52 then 0x00 else if x == 0x53 then 0xED else 
    if x == 0x54 then 0x20 else if x == 0x55 then 0xFC else if x == 0x56 then 0xB1 else if x == 0x57 then 0x5B else 
    if x == 0x58 then 0x6A else if x == 0x59 then 0xCB else if x == 0x5A then 0xBE else if x == 0x5B then 0x39 else 
    if x == 0x5C then 0x4A else if x == 0x5D then 0x4C else if x == 0x5E then 0x58 else 0xCF
  }

  function S6(x: bv8): bv8
  {
    if x == 0x60 then 0xD0 else if x == 0x61 then 0xEF else if x == 0x62 then 0xAA else if x == 0x63 then 0xFB else 
    if x == 0x64 then 0x43 else if x == 0x65 then 0x4D else if x == 0x66 then 0x33 else if x == 0x67 then 0x85 else 
    if x == 0x68 then 0x45 else if x == 0x69 then 0xF9 else if x == 0x6A then 0x02 else if x == 0x6B then 0x7F else 
    if x == 0x6C then 0x50 else if x == 0x6D then 0x3C else if x == 0x6E then 0x9F else 0xA8
  }

  function S7(x: bv8): bv8
  {
    if x == 0x70 then 0x51 else if x == 0x71 then 0xA3 else if x == 0x72 then 0x40 else if x == 0x73 then 0x8F else 
    if x == 0x74 then 0x92 else if x == 0x75 then 0x9D else if x == 0x76 then 0x38 else if x == 0x77 then 0xF5 else 
    if x == 0x78 then 0xBC else if x == 0x79 then 0xB6 else if x == 0x7A then 0xDA else if x == 0x7B then 0x21 else 
    if x == 0x7C then 0x10 else if x == 0x7D then 0xFF else if x == 0x7E then 0xF3 else 0xD2
  }

  function S8(x: bv8): bv8
  {
    if x == 0x80 then 0xCD else if x == 0x81 then 0x0C else if x == 0x82 then 0x13 else if x == 0x83 then 0xEC else 
    if x == 0x84 then 0x5F else if x == 0x85 then 0x97 else if x == 0x86 then 0x44 else if x == 0x87 then 0x17 else 
    if x == 0x88 then 0xC4 else if x == 0x89 then 0xA7 else if x == 0x8A then 0x7E else if x == 0x8B then 0x3D else 
    if x == 0x8C then 0x64 else if x == 0x8D then 0x5D else if x == 0x8E then 0x19 else 0x73
  }

  function S9(x: bv8): bv8
  {
    if x == 0x90 then 0x60 else if x == 0x91 then 0x81 else if x == 0x92 then 0x4F else if x == 0x93 then 0xDC else 
    if x == 0x94 then 0x22 else if x == 0x95 then 0x2A else if x == 0x96 then 0x90 else if x == 0x97 then 0x88 else 
    if x == 0x98 then 0x46 else if x == 0x99 then 0xEE else if x == 0x9A then 0xB8 else if x == 0x9B then 0x14 else 
    if x == 0x9C then 0xDE else if x == 0x9D then 0x5E else if x == 0x9E then 0x0B else 0xDB
  }

  function SA(x: bv8): bv8
  {
    if x == 0xA0 then 0xE0 else if x == 0xA1 then 0x32 else if x == 0xA2 then 0x3A else if x == 0xA3 then 0x0A else 
    if x == 0xA4 then 0x49 else if x == 0xA5 then 0x06 else if x == 0xA6 then 0x24 else if x == 0xA7 then 0x5C else 
    if x == 0xA8 then 0xC2 else if x == 0xA9 then 0xD3 else if x == 0xAA then 0xAC else if x == 0xAB then 0x62 else 
    if x == 0xAC then 0x91 else if x == 0xAD then 0x95 else if x == 0xAE then 0xE4 else 0x79
  }

  function SB(x: bv8): bv8
  {
    if x == 0xB0 then 0xE7 else if x == 0xB1 then 0xC8 else if x == 0xB2 then 0x37 else if x == 0xB3 then 0x6D else 
    if x == 0xB4 then 0x8D else if x == 0xB5 then 0xD5 else if x == 0xB6 then 0x4E else if x == 0xB7 then 0xA9 else 
    if x == 0xB8 then 0x6C else if x == 0xB9 then 0x56 else if x == 0xBA then 0xF4 else if x == 0xBB then 0xEA else 
    if x == 0xBC then 0x65 else if x == 0xBD then 0x7A else if x == 0xBE then 0xAE else 0x08
  }

  function SC(x: bv8): bv8
  {
    if x == 0xC0 then 0xBA else if x == 0xC1 then 0x78 else if x == 0xC2 then 0x25 else if x == 0xC3 then 0x2E else 
    if x == 0xC4 then 0x1C else if x == 0xC5 then 0xA6 else if x == 0xC6 then 0xB4 else if x == 0xC7 then 0xC6 else 
    if x == 0xC8 then 0xE8 else if x == 0xC9 then 0xDD else if x == 0xCA then 0x74 else if x == 0xCB then 0x1F else 
    if x == 0xCC then 0x4B else if x == 0xCD then 0xBD else if x == 0xCE then 0x8B else 0x8A
  }

  function SD(x: bv8): bv8
  {
    if x == 0xD0 then 0x70 else if x == 0xD1 then 0x3E else if x == 0xD2 then 0xB5 else if x == 0xD3 then 0x66 else 
    if x == 0xD4 then 0x48 else if x == 0xD5 then 0x03 else if x == 0xD6 then 0xF6 else if x == 0xD7 then 0x0E else 
    if x == 0xD8 then 0x61 else if x == 0xD9 then 0x35 else if x == 0xDA then 0x57 else if x == 0xDB then 0xB9 else 
    if x == 0xDC then 0x86 else if x == 0xDD then 0xC1 else if x == 0xDE then 0x1D else 0x9E
  }

  function SE(x: bv8): bv8
  {
    if x == 0xE0 then 0xE1 else if x == 0xE1 then 0xF8 else if x == 0xE2 then 0x98 else if x == 0xE3 then 0x11 else 
    if x == 0xE4 then 0x69 else if x == 0xE5 then 0xD9 else if x == 0xE6 then 0x8E else if x == 0xE7 then 0x94 else 
    if x == 0xE8 then 0x9B else if x == 0xE9 then 0x1E else if x == 0xEA then 0x87 else if x == 0xEB then 0xE9 else 
    if x == 0xEC then 0xCE else if x == 0xED then 0x55 else if x == 0xEE then 0x28 else 0xDF
  }

  function SF(x: bv8): bv8
  {
    if x == 0xF0 then 0x8C else if x == 0xF1 then 0xA1 else if x == 0xF2 then 0x89 else if x == 0xF3 then 0x0D else 
    if x == 0xF4 then 0xBF else if x == 0xF5 then 0xE6 else if x == 0xF6 then 0x42 else if x == 0xF7 then 0x68 else 
    if x == 0xF8 then 0x41 else if x == 0xF9 then 0x99 else if x == 0xFA then 0x2D else if x == 0xFB then 0x0F else 
    if x == 0xFC then 0xB0 else if x == 0xFD then 0x54 else if x == 0xFE then 0xBB else 0x16
  }

  function InvSbox(x: bv8): (r: bv8)
  {
    if x <= 0x0F then I0(x)
    else if x <= 0x1F then I1(x)
    else if x <= 0x2F then I2(x)
    else if x <= 0x3F then I3(x)
    else if x <= 0x4F then I4(x)
    else if x <= 0x5F then I5(x)
    else if x <= 0x6F then I6(x)
    else if x <= 0x7F then I7(x)
    else if x <= 0x8F then I8(x)
    else if x <= 0x9F then I9(x)
    else if x <= 0xAF then IA(x)
    else if x <= 0xBF then IB(x)
    else if x <= 0xCF then IC(x)
    else if x <= 0xDF then ID(x)
    else if x <= 0xEF then IE(x)
    else IF(x)
  }

  function I0(x: bv8): bv8
  {
    if x == 0x00 then 0x52 else if x == 0x01 then 0x09 else if x == 0x02 then 0x6A else if x == 0x03 then 0xD5 else 
    if x == 0x04 then 0x30 else if x == 0x05 then 0x36 else if x == 0x06 then 0xA5 else if x == 0x07 then 0x38 else 
    if x == 0x08 then 0xBF else if x == 0x09 then 0x40 else if x == 0x0A then 0xA3 else if x == 0x0B then 0x9E else 
    if x == 0x0C then 0x81 else if x == 0x0D then 0xF3 else if x == 0x0E then 0xD7 else 0xFB
  }

  function I1(x: bv8): bv8
  {
    if x == 0x10 then 0x7C else if x == 0x11 then 0xE3 else if x == 0x12 then 0x39 else if x == 0x13 then 0x82 else 
    if x == 0x14 then 0x9B else if x == 0x15 then 0x2F else if x == 0x16 then 0xFF else if x == 0x17 then 0x87 else 
    if x == 0x18 then 0x34 else if x == 0x19 then 0x8E else if x == 0x1A then 0x43 else if x == 0x1B then 0x44 else 
    if x == 0x1C then 0xC4 else if x == 0x1D then 0xDE else if x == 0x1E then 0xE9 else 0xCB
  }

  function I2(x: bv8): bv8
  {
    if x == 0x20 then 0x54 else if x == 0x21 then 0x7B else if x == 0x22 then 0x94 else if x == 0x23 then 0x32 else 
    if x == 0x24 then 0xA6 else if x == 0x25 then 0xC2 else if x == 0x26 then 0x23 else if x == 0x27 then 0x3D else 
    if x == 0x28 then 0xEE else if x == 0x29 then 0x4C else if x == 0x2A then 0x95 else if x == 0x2B then 0x0B else 
    if x == 0x2C then 0x42 else if x == 0x2D then 0xFA else if x == 0x2E then 0xC3 else 0x4E
  }

  function I3(x: bv8): bv8
  {
    if x == 0x30 then 0x08 else if x == 0x31 then 0x2E else if x == 0x32 then 0xA1 else if x == 0x33 then 0x66 else 
    if x == 0x34 then 0x28 else if x == 0x35 then 0xD9 else if x == 0x36 then 0x24 else if x == 0x37 then 0xB2 else 
    if x == 0x38 then 0x76 else if x == 0x39 then 0x5B else if x == 0x3A then 0xA2 else if x == 0x3B then 0x49 else 
    if x == 0x3C then 0x6D else if x == 0x3D then 0x8B else if x == 0x3E then 0xD1 else 0x25
  }

  function I4(x: bv8): bv8
  {
    if x == 0x40 then 0x72 else if x == 0x41 then 0xF8 else if x == 0x42 then 0xF6 else if x == 0x43 then 0x64 else 
    if x == 0x44 then 0x86 else if x == 0x45 then 0x68 else if x == 0x46 then 0x98 else if x == 0x47 then 0x16 else 
    if x == 0x48 then 0xD4 else if x == 0x49 then 0xA4 else if x == 0x4A then 0x5C else if x == 0x4B then 0xCC else 
    if x == 0x4C then 0x5D else if x == 0x4D then 0x65 else if x == 0x4E then 0xB6 else 0x92
  }

  function I5(x: bv8): bv8
  {
    if x == 0x50 then 0x6C else if x == 0x51 then 0x70 else if x == 0x52 then 0x48 else if x == 0x53 then 0x50 else 
    if x == 0x54 then 0xFD else if x == 0x55 then 0xED else if x == 0x56 then 0xB9 else if x == 0x57 then 0xDA else 
    if x == 0x58 then 0x5E else if x == 0x59 then 0x15 else if x == 0x5A then 0x46 else if x == 0x5B then 0x57 else 
    if x == 0x5C then 0xA7 else if x == 0x5D then 0x8D else if x == 0x5E then 0x9D else 0x84
  }

  function I6(x: bv8): bv8
  {
    if x == 0x60 then 0x90 else if x == 0x61 then 0xD8 else if x == 0x62 then 0xAB else if x == 0x63 then 0x00 else 
    if x == 0x64 then 0x8C else if x == 0x65 then 0xBC else if x == 0x66 then 0xD3 else if x == 0x67 then 0x0A else 
    if x == 0x68 then 0xF7 else if x == 0x69 then 0xE4 else if x == 0x6A then 0x58 else if x == 0x6B then 0x05 else 
    if x == 0x6C then 0xB8 else if x == 0x6D then 0xB3 else if x == 0x6E then 0x45 else 0x06
  }

  function I7(x: bv8): bv8
  {
    if x == 0x70 then 0xD0 else if x == 0x71 then 0x2C else if x == 0x72 then 0x1E else if x == 0x73 then 0x8F else 
    if x == 0x74 then 0xCA else if x == 0x75 then 0x3F else if x == 0x76 then 0x0F else if x == 0x77 then 0x02 else 
    if x == 0x78 then 0xC1 else if x == 0x79 then 0xAF else if x == 0x7A then 0xBD else if x == 0x7B then 0x03 else 
    if x == 0x7C then 0x01 else if x == 0x7D then 0x13 else if x == 0x7E then 0x8A else 0x6B
  }

  function I8(x: bv8): bv8
  {
    if x == 0x80 then 0x3A else if x == 0x81 then 0x91 else if x == 0x82 then 0x11 else if x == 0x83 then 0x41 else 
    if x == 0x84 then 0x4F else if x == 0x85 then 0x67 else if x == 0x86 then 0xDC else if x == 0x87 then 0xEA else 
    if x == 0x88 then 0x97 else if x == 0x89 then 0xF2 else if x == 0x8A then 0xCF else if x == 0x8B then 0xCE else 
    if x == 0x8C then 0xF0 else if x == 0x8D then 0xB4 else if x == 0x8E then 0xE6 else 0x73
  }

  function I9(x: bv8): bv8
  {
    if x == 0x90 then 0x96 else if x == 0x91 then 0xAC else if x == 0x92 then 0x74 else if x == 0x93 then 0x22 else 
    if x == 0x94 then 0xE7 else if x == 0x95 then 0xAD else if x == 0x96 then 0x35 else if x == 0x97 then 0x85 else 
    if x == 0x98 then 0xE2 else if x == 0x99 then 0xF9 else if x == 0x9A then 0x37 else if x == 0x9B then 0xE8 else 
    if x == 0x9C then 0x1C else if x == 0x9D then 0x75 else if x == 0x9E then 0xDF else 0x6E
  }

  function IA(x: bv8): bv8
  {
    if x == 0xA0 then 0x47 else if x == 0xA1 then 0xF1 else if x == 0xA2 then 0x1A else if x == 0xA3 then 0x71 else 
    if x == 0xA4 then 0x1D else if x == 0xA5 then 0x29 else if x == 0xA6 then 0xC5 else if x == 0xA7 then 0x89 else 
    if x == 0xA8 then 0x6F else if x == 0xA9 then 0xB7 else if x == 0xAA then 0x62 else if x == 0xAB then 0x0E else 
    if x == 0xAC then 0xAA else if x == 0xAD then 0x18 else if x == 0xAE then 0xBE else 0x1B
  }

  function IB(x: bv8): bv8
  {
    if x == 0xB0 then 0xFC else if x == 0xB1 then 0x56 else if x == 0xB2 then 0x3E else if x == 0xB3 then 0x4B else 
    if x == 0xB4 then 0xC6 else if x == 0xB5 then 0xD2 else if x == 0xB6 then 0x79 else if x == 0xB7 then 0x20 else 
    if x == 0xB8 then 0x9A else if x == 0xB9 then 0xDB else if x == 0xBA then 0xC0 else if x == 0xBB then 0xFE else 
    if x == 0xBC then 0x78 else if x == 0xBD then 0xCD else if x == 0xBE then 0x5A else 0xF4
  }

  function IC(x: bv8): bv8
  {
    if x == 0xC0 then 0x1F else if x == 0xC1 then 0xDD else if x == 0xC2 then 0xA8 else if x == 0xC3 then 0x33 else 
    if x == 0xC4 then 0x88 else if x == 0xC5 then 0x07 else if x == 0xC6 then 0xC7 else if x == 0xC7 then 0x31 else 
    if x == 0xC8 then 0xB1 else if x == 0xC9 then 0x12 else if x == 0xCA then 0x10 else if x == 0xCB then 0x59 else 
    if x == 0xCC then 0x27 else if x == 0xCD then 0x80 else if x == 0xCE then 0xEC else 0x5F
  }

  function ID(x: bv8): bv8
  {
    if x == 0xD0 then 0x60 else if x == 0xD1 then 0x51 else if x == 0xD2 then 0x7F else if x == 0xD3 then 0xA9 else 
    if x == 0xD4 then 0x19 else if x == 0xD5 then 0xB5 else if x == 0xD6 then 0x4A else if x == 0xD7 then 0x0D else 
    if x == 0xD8 then 0x2D else if x == 0xD9 then 0xE5 else if x == 0xDA then 0x7A else if x == 0xDB then 0x9F else 
    if x == 0xDC then 0x93 else if x == 0xDD then 0xC9 else if x == 0xDE then 0x9C else 0xEF
  }

  function IE(x: bv8): bv8
  {
    if x == 0xE0 then 0xA0 else if x == 0xE1 then 0xE0 else if x == 0xE2 then 0x3B else if x == 0xE3 then 0x4D else 
    if x == 0xE4 then 0xAE else if x == 0xE5 then 0x2A else if x == 0xE6 then 0xF5 else if x == 0xE7 then 0xB0 else 
    if x == 0xE8 then 0xC8 else if x == 0xE9 then 0xEB else if x == 0xEA then 0xBB else if x == 0xEB then 0x3C else 
    if x == 0xEC then 0x83 else if x == 0xED then 0x53 else if x == 0xEE then 0x99 else 0x61
  }

  function IF(x: bv8): bv8
  {
    if x == 0xF0 then 0x17 else if x == 0xF1 then 0x2B else if x == 0xF2 then 0x04 else if x == 0xF3 then 0x7E else 
    if x == 0xF4 then 0xBA else if x == 0xF5 then 0x77 else if x == 0xF6 then 0xD6 else if x == 0xF7 then 0x26 else 
    if x == 0xF8 then 0xE1 else if x == 0xF9 then 0x69 else if x == 0xFA then 0x14 else if x == 0xFB then 0x63 else 
    if x == 0xFC then 0x55 else if x == 0xFD then 0x21 else if x == 0xFE then 0x0C else 0x7D
  }

  lemma InverseRow0(x: bv8)
    requires x <= 0x0F
    ensures InvSbox(S0(x)) == x
  {
  }

  lemma InverseRow1(x: bv8)
    requires 0x10 <= x <= 0x1F
    ensures InvSbox(S1(x)) == x
  {
  }

  lemma InverseRow2(x: bv8)
    requires 0x20 <= x <= 0x2F
    ensures InvSbox(S2(x)) == x
  {
  }

  lemma InverseRow3(x: bv8)
    requires 0x30 <= x <= 0x3F
    ensures InvSbox(S3(x)) == x
  {
  }

  lemma InverseRow4(x: bv8)
    requires 0x40 <= x <= 0x4F
    ensures InvSbox(S4(x)) == x
  {
  }

  lemma InverseRow5(x: bv8)
    requires 0x50 <= x <= 0x5F
    ensures InvSbox(S5(x)) == x
  {
  }

  lemma InverseRow6(x: bv8)
    requires 0x60 <= x <= 0x6F
    ensures InvSbox(S6(x)) == x
  {
  }

  lemma InverseRow7(x: bv8)
    requires 0x70 <= x <= 0x7F
    ensures InvSbox(S7(x)) == x
  {
  }

  lemma InverseRow8(x: bv8)
    requires 0x80 <= x <= 0x8F
    ensures InvSbox(S8(x)) == x
  {
  }

  lemma InverseRow9(x: bv8)
    requires 0x90 <= x <= 0x9F
    ensures InvSbox(S9(x)) == x
  {
  }

  lemma InverseRowA(x: bv8)
    requires 0xA0 <= x <= 0xAF
    ensures InvSbox(SA(x)) == x
  {
  }

  lemma InverseRowB(x: bv8)
    requires 0xB0 <= x <= 0xBF
    ensures InvSbox(SB(x)) == x
  {
  }

  lemma InverseRowC(x: bv8)
    requires 0xC0 <= x <= 0xCF
    ensures InvSbox(SC(x)) == x
  {
  }

  lemma InverseRowD(x: bv8)
    requires 0xD0 <= x <= 0xDF
    ensures InvSbox(SD(x)) == x
  {
  }

  lemma InverseRowE(x: bv8)
    requires 0xE0 <= x <= 0xEF
    ensures InvSbox(SE(x)) == x
  {
  }

  lemma InverseRowF(x: bv8)
    requires 0xF0 <= x
    ensures InvSbox(SF(x)) == x
  {
  }

  /** The second table undoes the first. */
  lemma SboxInverse(x: bv8)
    ensures InvSbox(Sbox(x)) == x
  {
    hide InvSbox, S0, S1, S2, S3, S4, S5, S6, S7, S8, S9, SA, SB, SC, SD, SE, SF;
    if x <= 0x0F { InverseRow0(x); }
    else if x <= 0x1F { InverseRow1(x); }
    else if x <= 0x2F { InverseRow2(x); }
    else if x <= 0x3F { InverseRow3(x); }
    else if x <= 0x4F { InverseRow4(x); }
    else if x <= 0x5F { InverseRow5(x); }
    else if x <= 0x6F { InverseRow6(x); }
    else if x <= 0x7F { InverseRow7(x); }
    else if x <= 0x8F { InverseRow8(x); }
    else if x <= 0x9F { InverseRow9(x); }
    else if x <= 0xAF { InverseRowA(x); }
    else if x <= 0xBF { InverseRowB(x); }
    else if x <= 0xCF { InverseRowC(x); }
    else if x <= 0xDF { InverseRowD(x); }
    else if x <= 0xEF { InverseRowE(x); }
    else { InverseRowF(x); }
  }
}
