/** The arithmetic of FIPS 197: the S-box and its inverse, multiplication in GF(2^8), columns of
    four bytes and the 32-bit words they are kept in. */
module AesTables {

  // ---------------------------------------------------------------- the S-boxes

  /** The S-box, as a decision on the bits of its argument. */
  function SBox(x: bv8): bv8 {
    if x & 0x80 == 0 then
     if x & 0x40 == 0 then
      if x & 0x20 == 0 then
       if x & 0x10 == 0 then
        if x & 0x08 == 0 then
         if x & 0x04 == 0 then
          if x & 2 == 0 then (if x & 1 == 0 then 0x63 else 0x7c) else (if x & 1 == 0 then 0x77 else 0x7b)
         else
          if x & 2 == 0 then (if x & 1 == 0 then 0xf2 else 0x6b) else (if x & 1 == 0 then 0x6f else 0xc5)
        else
         if x & 0x04 == 0 then
          if x & 2 == 0 then (if x & 1 == 0 then 0x30 else 0x01) else (if x & 1 == 0 then 0x67 else 0x2b)
         else
          if x & 2 == 0 then (if x & 1 == 0 then 0xfe else 0xd7) else (if x & 1 == 0 then 0xab else 0x76)
       else
        if x & 0x08 == 0 then
         if x & 0x04 == 0 then
          if x & 2 == 0 then (if x & 1 == 0 then 0xca else 0x82) else (if x & 1 == 0 then 0xc9 else 0x7d)
         else
          if x & 2 == 0 then (if x & 1 == 0 then 0xfa else 0x59) else (if x & 1 == 0 then 0x47 else 0xf0)
        else
         if x & 0x04 == 0 then
          if x & 2 == 0 then (if x & 1 == 0 then 0xad else 0xd4) else (if x & 1 == 0 then 0xa2 else 0xaf)
         else
          if x & 2 == 0 then (if x & 1 == 0 then 0x9c else 0xa4) else (if x & 1 == 0 then 0x72 else 0xc0)
      else
       if x & 0x10 == 0 then
        if x & 0x08 == 0 then
         if x & 0x04 == 0 then
          if x & 2 == 0 then (if x & 1 == 0 then 0xb7 else 0xfd) else (if x & 1 == 0 then 0x93 else 0x26)
         else
          if x & 2 == 0 then (if x & 1 == 0 then 0x36 else 0x3f) else (if x & 1 == 0 then 0xf7 else 0xcc)
        else
         if x & 0x04 == 0 then
          if x & 2 == 0 then (if x & 1 == 0 then 0x34 else 0xa5) else (if x & 1 == 0 then 0xe5 else 0xf1)
         else
          if x & 2 == 0 then (if x & 1 == 0 then 0x71 else 0xd8) else (if x & 1 == 0 then 0x31 else 0x15)
       else
        if x & 0x08 == 0 then
         if x & 0x04 == 0 then
          if x & 2 == 0 then (if x & 1 == 0 then 0x04 else 0xc7) else (if x & 1 == 0 then 0x23 else 0xc3)
         else
          if x & 2 == 0 then (if x & 1 == 0 then 0x18 else 0x96) else (if x & 1 == 0 then 0x05 else 0x9a)
        else
         if x & 0x04 == 0 then
          if x & 2 == 0 then (if x & 1 == 0 then 0x07 else 0x12) else (if x & 1 == 0 then 0x80 else 0xe2)
         else
          if x & 2 == 0 then (if x & 1 == 0 then 0xeb else 0x27) else (if x & 1 == 0 then 0xb2 else 0x75)
     else
      if x & 0x20 == 0 then
       if x & 0x10 == 0 then
        if x & 0x08 == 0 then
         if x & 0x04 == 0 then
          if x & 2 == 0 then (if x & 1 == 0 then 0x09 else 0x83) else (if x & 1 == 0 then 0x2c else 0x1a)
         else
          if x & 2 == 0 then (if x & 1 == 0 then 0x1b else 0x6e) else (if x & 1 == 0 then 0x5a else 0xa0)
        else
         if x & 0x04 == 0 then
          if x & 2 == 0 then (if x & 1 == 0 then 0x52 else 0x3b) else (if x & 1 == 0 then 0xd6 else 0xb3)
         else
          if x & 2 == 0 then (if x & 1 == 0 then 0x29 else 0xe3) else (if x & 1 == 0 then 0x2f else 0x84)
       else
        if x & 0x08 == 0 then
         if x & 0x04 == 0 then
          if x & 2 == 0 then (if x & 1 == 0 then 0x53 else 0xd1) else (if x & 1 == 0 then 0x00 else 0xed)
         else
          if x & 2 == 0 then (if x & 1 == 0 then 0x20 else 0xfc) else (if x & 1 == 0 then 0xb1 else 0x5b)
        else
         if x & 0x04 == 0 then
          if x & 2 == 0 then (if x & 1 == 0 then 0x6a else 0xcb) else (if x & 1 == 0 then 0xbe else 0x39)
         else
          if x & 2 == 0 then (if x & 1 == 0 then 0x4a else 0x4c) else (if x & 1 == 0 then 0x58 else 0xcf)
      else
       if x & 0x10 == 0 then
        if x & 0x08 == 0 then
         if x & 0x04 == 0 then
          if x & 2 == 0 then (if x & 1 == 0 then 0xd0 else 0xef) else (if x & 1 == 0 then 0xaa else 0xfb)
         else
          if x & 2 == 0 then (if x & 1 == 0 then 0x43 else 0x4d) else (if x & 1 == 0 then 0x33 else 0x85)
        else
         if x & 0x04 == 0 then
          if x & 2 == 0 then (if x & 1 == 0 then 0x45 else 0xf9) else (if x & 1 == 0 then 0x02 else 0x7f)
         else
          if x & 2 == 0 then (if x & 1 == 0 then 0x50 else 0x3c) else (if x & 1 == 0 then 0x9f else 0xa8)
       else
        if x & 0x08 == 0 then
         if x & 0x04 == 0 then
          if x & 2 == 0 then (if x & 1 == 0 then 0x51 else 0xa3) else (if x & 1 == 0 then 0x40 else 0x8f)
         else
          if x & 2 == 0 then (if x & 1 == 0 then 0x92 else 0x9d) else (if x & 1 == 0 then 0x38 else 0xf5)
        else
         if x & 0x04 == 0 then
          if x & 2 == 0 then (if x & 1 == 0 then 0xbc else 0xb6) else (if x & 1 == 0 then 0xda else 0x21)
         else
          if x & 2 == 0 then (if x & 1 == 0 then 0x10 else 0xff) else (if x & 1 == 0 then 0xf3 else 0xd2)
    else
     if x & 0x40 == 0 then
      if x & 0x20 == 0 then
       if x & 0x10 == 0 then
        if x & 0x08 == 0 then
         if x & 0x04 == 0 then
          if x & 2 == 0 then (if x & 1 == 0 then 0xcd else 0x0c) else (if x & 1 == 0 then 0x13 else 0xec)
         else
          if x & 2 == 0 then (if x & 1 == 0 then 0x5f else 0x97) else (if x & 1 == 0 then 0x44 else 0x17)
        else
         if x & 0x04 == 0 then
          if x & 2 == 0 then (if x & 1 == 0 then 0xc4 else 0xa7) else (if x & 1 == 0 then 0x7e else 0x3d)
         else
          if x & 2 == 0 then (if x & 1 == 0 then 0x64 else 0x5d) else (if x & 1 == 0 then 0x19 else 0x73)
       else
        if x & 0x08 == 0 then
         if x & 0x04 == 0 then
          if x & 2 == 0 then (if x & 1 == 0 then 0x60 else 0x81) else (if x & 1 == 0 then 0x4f else 0xdc)
         else
          if x & 2 == 0 then (if x & 1 == 0 then 0x22 else 0x2a) else (if x & 1 == 0 then 0x90 else 0x88)
        else
         if x & 0x04 == 0 then
          if x & 2 == 0 then (if x & 1 == 0 then 0x46 else 0xee) else (if x & 1 == 0 then 0xb8 else 0x14)
         else
          if x & 2 == 0 then (if x & 1 == 0 then 0xde else 0x5e) else (if x & 1 == 0 then 0x0b else 0xdb)
      else
       if x & 0x10 == 0 then
        if x & 0x08 == 0 then
         if x & 0x04 == 0 then
          if x & 2 == 0 then (if x & 1 == 0 then 0xe0 else 0x32) else (if x & 1 == 0 then 0x3a else 0x0a)
         else
          if x & 2 == 0 then (if x & 1 == 0 then 0x49 else 0x06) else (if x & 1 == 0 then 0x24 else 0x5c)
        else
         if x & 0x04 == 0 then
          if x & 2 == 0 then (if x & 1 == 0 then 0xc2 else 0xd3) else (if x & 1 == 0 then 0xac else 0x62)
         else
          if x & 2 == 0 then (if x & 1 == 0 then 0x91 else 0x95) else (if x & 1 == 0 then 0xe4 else 0x79)
       else
        if x & 0x08 == 0 then
         if x & 0x04 == 0 then
          if x & 2 == 0 then (if x & 1 == 0 then 0xe7 else 0xc8) else (if x & 1 == 0 then 0x37 else 0x6d)
         else
          if x & 2 == 0 then (if x & 1 == 0 then 0x8d else 0xd5) else (if x & 1 == 0 then 0x4e else 0xa9)
        else
         if x & 0x04 == 0 then
          if x & 2 == 0 then (if x & 1 == 0 then 0x6c else 0x56) else (if x & 1 == 0 then 0xf4 else 0xea)
         else
          if x & 2 == 0 then (if x & 1 == 0 then 0x65 else 0x7a) else (if x & 1 == 0 then 0xae else 0x08)
     else
      if x & 0x20 == 0 then
       if x & 0x10 == 0 then
        if x & 0x08 == 0 then
         if x & 0x04 == 0 then
          if x & 2 == 0 then (if x & 1 == 0 then 0xba else 0x78) else (if x & 1 == 0 then 0x25 else 0x2e)
         else
          if x & 2 == 0 then (if x & 1 == 0 then 0x1c else 0xa6) else (if x & 1 == 0 then 0xb4 else 0xc6)
        else
         if x & 0x04 == 0 then
          if x & 2 == 0 then (if x & 1 == 0 then 0xe8 else 0xdd) else (if x & 1 == 0 then 0x74 else 0x1f)
         else
          if x & 2 == 0 then (if x & 1 == 0 then 0x4b else 0xbd) else (if x & 1 == 0 then 0x8b else 0x8a)
       else
        if x & 0x08 == 0 then
         if x & 0x04 == 0 then
          if x & 2 == 0 then (if x & 1 == 0 then 0x70 else 0x3e) else (if x & 1 == 0 then 0xb5 else 0x66)
         else
          if x & 2 == 0 then (if x & 1 == 0 then 0x48 else 0x03) else (if x & 1 == 0 then 0xf6 else 0x0e)
        else
         if x & 0x04 == 0 then
          if x & 2 == 0 then (if x & 1 == 0 then 0x61 else 0x35) else (if x & 1 == 0 then 0x57 else 0xb9)
         else
          if x & 2 == 0 then (if x & 1 == 0 then 0x86 else 0xc1) else (if x & 1 == 0 then 0x1d else 0x9e)
      else
       if x & 0x10 == 0 then
        if x & 0x08 == 0 then
         if x & 0x04 == 0 then
          if x & 2 == 0 then (if x & 1 == 0 then 0xe1 else 0xf8) else (if x & 1 == 0 then 0x98 else 0x11)
         else
          if x & 2 == 0 then (if x & 1 == 0 then 0x69 else 0xd9) else (if x & 1 == 0 then 0x8e else 0x94)
        else
         if x & 0x04 == 0 then
          if x & 2 == 0 then (if x & 1 == 0 then 0x9b else 0x1e) else (if x & 1 == 0 then 0x87 else 0xe9)
         else
          if x & 2 == 0 then (if x & 1 == 0 then 0xce else 0x55) else (if x & 1 == 0 then 0x28 else 0xdf)
       else
        if x & 0x08 == 0 then
         if x & 0x04 == 0 then
          if x & 2 == 0 then (if x & 1 == 0 then 0x8c else 0xa1) else (if x & 1 == 0 then 0x89 else 0x0d)
         else
          if x & 2 == 0 then (if x & 1 == 0 then 0xbf else 0xe6) else (if x & 1 == 0 then 0x42 else 0x68)
        else
         if x & 0x04 == 0 then
          if x & 2 == 0 then (if x & 1 == 0 then 0x41 else 0x99) else (if x & 1 == 0 then 0x2d else 0x0f)
         else
          if x & 2 == 0 then (if x & 1 == 0 then 0xb0 else 0x54) else (if x & 1 == 0 then 0xbb else 0x16)
  }

  /** The inverse S-box. */
  function InvSBox(x: bv8): bv8 {
    if x & 0x80 == 0 then
     if x & 0x40 == 0 then
      if x & 0x20 == 0 then
       if x & 0x10 == 0 then
        if x & 0x08 == 0 then
         if x & 0x04 == 0 then
          if x & 2 == 0 then (if x & 1 == 0 then 0x52 else 0x09) else (if x & 1 == 0 then 0x6a else 0xd5)
         else
          if x & 2 == 0 then (if x & 1 == 0 then 0x30 else 0x36) else (if x & 1 == 0 then 0xa5 else 0x38)
        else
         if x & 0x04 == 0 then
          if x & 2 == 0 then (if x & 1 == 0 then 0xbf else 0x40) else (if x & 1 == 0 then 0xa3 else 0x9e)
         else
          if x & 2 == 0 then (if x & 1 == 0 then 0x81 else 0xf3) else (if x & 1 == 0 then 0xd7 else 0xfb)
       else
        if x & 0x08 == 0 then
         if x & 0x04 == 0 then
          if x & 2 == 0 then (if x & 1 == 0 then 0x7c else 0xe3) else (if x & 1 == 0 then 0x39 else 0x82)
         else
          if x & 2 == 0 then (if x & 1 == 0 then 0x9b else 0x2f) else (if x & 1 == 0 then 0xff else 0x87)
        else
         if x & 0x04 == 0 then
          if x & 2 == 0 then (if x & 1 == 0 then 0x34 else 0x8e) else (if x & 1 == 0 then 0x43 else 0x44)
         else
          if x & 2 == 0 then (if x & 1 == 0 then 0xc4 else 0xde) else (if x & 1 == 0 then 0xe9 else 0xcb)
      else
       if x & 0x10 == 0 then
        if x & 0x08 == 0 then
         if x & 0x04 == 0 then
          if x & 2 == 0 then (if x & 1 == 0 then 0x54 else 0x7b) else (if x & 1 == 0 then 0x94 else 0x32)
         else
          if x & 2 == 0 then (if x & 1 == 0 then 0xa6 else 0xc2) else (if x & 1 == 0 then 0x23 else 0x3d)
        else
         if x & 0x04 == 0 then
          if x & 2 == 0 then (if x & 1 == 0 then 0xee else 0x4c) else (if x & 1 == 0 then 0x95 else 0x0b)
         else
          if x & 2 == 0 then (if x & 1 == 0 then 0x42 else 0xfa) else (if x & 1 == 0 then 0xc3 else 0x4e)
       else
        if x & 0x08 == 0 then
         if x & 0x04 == 0 then
          if x & 2 == 0 then (if x & 1 == 0 then 0x08 else 0x2e) else (if x & 1 == 0 then 0xa1 else 0x66)
         else
          if x & 2 == 0 then (if x & 1 == 0 then 0x28 else 0xd9) else (if x & 1 == 0 then 0x24 else 0xb2)
        else
         if x & 0x04 == 0 then
          if x & 2 == 0 then (if x & 1 == 0 then 0x76 else 0x5b) else (if x & 1 == 0 then 0xa2 else 0x49)
         else
          if x & 2 == 0 then (if x & 1 == 0 then 0x6d else 0x8b) else (if x & 1 == 0 then 0xd1 else 0x25)
     else
      if x & 0x20 == 0 then
       if x & 0x10 == 0 then
        if x & 0x08 == 0 then
         if x & 0x04 == 0 then
          if x & 2 == 0 then (if x & 1 == 0 then 0x72 else 0xf8) else (if x & 1 == 0 then 0xf6 else 0x64)
         else
          if x & 2 == 0 then (if x & 1 == 0 then 0x86 else 0x68) else (if x & 1 == 0 then 0x98 else 0x16)
        else
         if x & 0x04 == 0 then
          if x & 2 == 0 then (if x & 1 == 0 then 0xd4 else 0xa4) else (if x & 1 == 0 then 0x5c else 0xcc)
         else
          if x & 2 == 0 then (if x & 1 == 0 then 0x5d else 0x65) else (if x & 1 == 0 then 0xb6 else 0x92)
       else
        if x & 0x08 == 0 then
         if x & 0x04 == 0 then
          if x & 2 == 0 then (if x & 1 == 0 then 0x6c else 0x70) else (if x & 1 == 0 then 0x48 else 0x50)
         else
          if x & 2 == 0 then (if x & 1 == 0 then 0xfd else 0xed) else (if x & 1 == 0 then 0xb9 else 0xda)
        else
         if x & 0x04 == 0 then
          if x & 2 == 0 then (if x & 1 == 0 then 0x5e else 0x15) else (if x & 1 == 0 then 0x46 else 0x57)
         else
          if x & 2 == 0 then (if x & 1 == 0 then 0xa7 else 0x8d) else (if x & 1 == 0 then 0x9d else 0x84)
      else
       if x & 0x10 == 0 then
        if x & 0x08 == 0 then
         if x & 0x04 == 0 then
          if x & 2 == 0 then (if x & 1 == 0 then 0x90 else 0xd8) else (if x & 1 == 0 then 0xab else 0x00)
         else
          if x & 2 == 0 then (if x & 1 == 0 then 0x8c else 0xbc) else (if x & 1 == 0 then 0xd3 else 0x0a)
        else
         if x & 0x04 == 0 then
          if x & 2 == 0 then (if x & 1 == 0 then 0xf7 else 0xe4) else (if x & 1 == 0 then 0x58 else 0x05)
         else
          if x & 2 == 0 then (if x & 1 == 0 then 0xb8 else 0xb3) else (if x & 1 == 0 then 0x45 else 0x06)
       else
        if x & 0x08 == 0 then
         if x & 0x04 == 0 then
          if x & 2 == 0 then (if x & 1 == 0 then 0xd0 else 0x2c) else (if x & 1 == 0 then 0x1e else 0x8f)
         else
          if x & 2 == 0 then (if x & 1 == 0 then 0xca else 0x3f) else (if x & 1 == 0 then 0x0f else 0x02)
        else
         if x & 0x04 == 0 then
          if x & 2 == 0 then (if x & 1 == 0 then 0xc1 else 0xaf) else (if x & 1 == 0 then 0xbd else 0x03)
         else
          if x & 2 == 0 then (if x & 1 == 0 then 0x01 else 0x13) else (if x & 1 == 0 then 0x8a else 0x6b)
    else
     if x & 0x40 == 0 then
      if x & 0x20 == 0 then
       if x & 0x10 == 0 then
        if x & 0x08 == 0 then
         if x & 0x04 == 0 then
          if x & 2 == 0 then (if x & 1 == 0 then 0x3a else 0x91) else (if x & 1 == 0 then 0x11 else 0x41)
         else
          if x & 2 == 0 then (if x & 1 == 0 then 0x4f else 0x67) else (if x & 1 == 0 then 0xdc else 0xea)
        else
         if x & 0x04 == 0 then
          if x & 2 == 0 then (if x & 1 == 0 then 0x97 else 0xf2) else (if x & 1 == 0 then 0xcf else 0xce)
         else
          if x & 2 == 0 then (if x & 1 == 0 then 0xf0 else 0xb4) else (if x & 1 == 0 then 0xe6 else 0x73)
       else
        if x & 0x08 == 0 then
         if x & 0x04 == 0 then
          if x & 2 == 0 then (if x & 1 == 0 then 0x96 else 0xac) else (if x & 1 == 0 then 0x74 else 0x22)
         else
          if x & 2 == 0 then (if x & 1 == 0 then 0xe7 else 0xad) else (if x & 1 == 0 then 0x35 else 0x85)
        else
         if x & 0x04 == 0 then
          if x & 2 == 0 then (if x & 1 == 0 then 0xe2 else 0xf9) else (if x & 1 == 0 then 0x37 else 0xe8)
         else
          if x & 2 == 0 then (if x & 1 == 0 then 0x1c else 0x75) else (if x & 1 == 0 then 0xdf else 0x6e)
      else
       if x & 0x10 == 0 then
        if x & 0x08 == 0 then
         if x & 0x04 == 0 then
          if x & 2 == 0 then (if x & 1 == 0 then 0x47 else 0xf1) else (if x & 1 == 0 then 0x1a else 0x71)
         else
          if x & 2 == 0 then (if x & 1 == 0 then 0x1d else 0x29) else (if x & 1 == 0 then 0xc5 else 0x89)
        else
         if x & 0x04 == 0 then
          if x & 2 == 0 then (if x & 1 == 0 then 0x6f else 0xb7) else (if x & 1 == 0 then 0x62 else 0x0e)
         else
          if x & 2 == 0 then (if x & 1 == 0 then 0xaa else 0x18) else (if x & 1 == 0 then 0xbe else 0x1b)
       else
        if x & 0x08 == 0 then
         if x & 0x04 == 0 then
          if x & 2 == 0 then (if x & 1 == 0 then 0xfc else 0x56) else (if x & 1 == 0 then 0x3e else 0x4b)
         else
          if x & 2 == 0 then (if x & 1 == 0 then 0xc6 else 0xd2) else (if x & 1 == 0 then 0x79 else 0x20)
        else
         if x & 0x04 == 0 then
          if x & 2 == 0 then (if x & 1 == 0 then 0x9a else 0xdb) else (if x & 1 == 0 then 0xc0 else 0xfe)
         else
          if x & 2 == 0 then (if x & 1 == 0 then 0x78 else 0xcd) else (if x & 1 == 0 then 0x5a else 0xf4)
     else
      if x & 0x20 == 0 then
       if x & 0x10 == 0 then
        if x & 0x08 == 0 then
         if x & 0x04 == 0 then
          if x & 2 == 0 then (if x & 1 == 0 then 0x1f else 0xdd) else (if x & 1 == 0 then 0xa8 else 0x33)
         else
          if x & 2 == 0 then (if x & 1 == 0 then 0x88 else 0x07) else (if x & 1 == 0 then 0xc7 else 0x31)
        else
         if x & 0x04 == 0 then
          if x & 2 == 0 then (if x & 1 == 0 then 0xb1 else 0x12) else (if x & 1 == 0 then 0x10 else 0x59)
         else
          if x & 2 == 0 then (if x & 1 == 0 then 0x27 else 0x80) else (if x & 1 == 0 then 0xec else 0x5f)
       else
        if x & 0x08 == 0 then
         if x & 0x04 == 0 then
          if x & 2 == 0 then (if x & 1 == 0 then 0x60 else 0x51) else (if x & 1 == 0 then 0x7f else 0xa9)
         else
          if x & 2 == 0 then (if x & 1 == 0 then 0x19 else 0xb5) else (if x & 1 == 0 then 0x4a else 0x0d)
        else
         if x & 0x04 == 0 then
          if x & 2 == 0 then (if x & 1 == 0 then 0x2d else 0xe5) else (if x & 1 == 0 then 0x7a else 0x9f)
         else
          if x & 2 == 0 then (if x & 1 == 0 then 0x93 else 0xc9) else (if x & 1 == 0 then 0x9c else 0xef)
      else
       if x & 0x10 == 0 then
        if x & 0x08 == 0 then
         if x & 0x04 == 0 then
          if x & 2 == 0 then (if x & 1 == 0 then 0xa0 else 0xe0) else (if x & 1 == 0 then 0x3b else 0x4d)
         else
          if x & 2 == 0 then (if x & 1 == 0 then 0xae else 0x2a) else (if x & 1 == 0 then 0xf5 else 0xb0)
        else
         if x & 0x04 == 0 then
          if x & 2 == 0 then (if x & 1 == 0 then 0xc8 else 0xeb) else (if x & 1 == 0 then 0xbb else 0x3c)
         else
          if x & 2 == 0 then (if x & 1 == 0 then 0x83 else 0x53) else (if x & 1 == 0 then 0x99 else 0x61)
       else
        if x & 0x08 == 0 then
         if x & 0x04 == 0 then
          if x & 2 == 0 then (if x & 1 == 0 then 0x17 else 0x2b) else (if x & 1 == 0 then 0x04 else 0x7e)
         else
          if x & 2 == 0 then (if x & 1 == 0 then 0xba else 0x77) else (if x & 1 == 0 then 0xd6 else 0x26)
        else
         if x & 0x04 == 0 then
          if x & 2 == 0 then (if x & 1 == 0 then 0xe1 else 0x69) else (if x & 1 == 0 then 0x14 else 0x63)
         else
          if x & 2 == 0 then (if x & 1 == 0 then 0x55 else 0x21) else (if x & 1 == 0 then 0x0c else 0x7d)
  }

  lemma SBoxInverse(x: bv8)
    ensures InvSBox(SBox(x)) == x
  {
  }

  // ---------------------------------------------------------------- GF(2^8)

  function Add(a: bv8, b: bv8): bv8 {
    a ^ b
  }

  /** Multiplication by x modulo x^8 + x^4 + x^3 + x + 1. */
  function Mul2(b: bv8): bv8 {
    if b & 0x80 == 0 then b << 1 else (b << 1) ^ 0x1b
  }

  function Mul4(b: bv8): bv8 {
    Mul2(Mul2(b))
  }

  function Mul8(b: bv8): bv8 {
    Mul2(Mul4(b))
  }

  function Mul3(b: bv8): bv8 {
    Add(Mul2(b), b)
  }

  function Mul9(b: bv8): bv8 {
    Add(Mul8(b), b)
  }

  function MulB(b: bv8): bv8 {
    Add(Mul8(b), Mul3(b))
  }

  function MulD(b: bv8): bv8 {
    Add(Mul8(b), Add(Mul4(b), b))
  }

  function MulE(b: bv8): bv8 {
    Add(Mul8(b), Add(Mul4(b), Mul2(b)))
  }

  function Times(bit: bv8, b: bv8): bv8 {
    if bit == 0 then 0 else b
  }

  /** The product in GF(2^8), by the bits of the first factor. */
  function Product(a: bv8, b: bv8): bv8 {
    var b16 := Mul2(Mul8(b));
    Times(a & 1, b) ^ Times(a & 2, Mul2(b)) ^ Times(a & 4, Mul4(b)) ^ Times(a & 8, Mul8(b))
    ^ Times(a & 16, b16) ^ Times(a & 32, Mul2(b16)) ^ Times(a & 64, Mul4(b16)) ^ Times(a & 128, Mul8(b16))
  }

  function RotateLeft(b: bv8, n: bv8): bv8
    requires n < 8
  {
    (b << n) | (b >> (8 - n))
  }

  function Affine(b: bv8): bv8 {
    b ^ RotateLeft(b, 1) ^ RotateLeft(b, 2) ^ RotateLeft(b, 3) ^ RotateLeft(b, 4) ^ 0x63
  }

  function InvAffine(y: bv8): bv8 {
    RotateLeft(y, 1) ^ RotateLeft(y, 3) ^ RotateLeft(y, 6) ^ 0x05
  }

  /** The S-box entry of `x` is the affine map of the multiplicative inverse of `x` (of zero for
      zero), as section 5.1.1 of FIPS 197 defines it. */
  lemma SBoxIsAffineInverse(x: bv8)
    ensures var y := InvAffine(SBox(x));
            Affine(y) == SBox(x) && if x == 0 then y == 0 else Product(x, y) == 1
  {
  }

  lemma MixCoefficientsAreProducts(b: bv8)
    ensures Mul2(b) == Product(2, b) && Mul3(b) == Product(3, b)
  {
  }

  lemma InvMixCoefficientsAreProducts(b: bv8)
    ensures Mul9(b) == Product(9, b) && MulB(b) == Product(0xb, b)
    ensures MulD(b) == Product(0xd, b) && MulE(b) == Product(0xe, b)
  {
    hide Product, Mul9, MulB, MulD, MulE;
    Mul9IsProduct(b);
    MulBIsProduct(b);
    MulDIsProduct(b);
    MulEIsProduct(b);
  }

  lemma Mul9IsProduct(b: bv8)
    ensures Mul9(b) == Product(9, b)
  {
  }

  lemma MulBIsProduct(b: bv8)
    ensures MulB(b) == Product(0xb, b)
  {
  }

  lemma MulDIsProduct(b: bv8)
    ensures MulD(b) == Product(0xd, b)
  {
  }

  lemma MulEIsProduct(b: bv8)
    ensures MulE(b) == Product(0xe, b)
  {
  }

  // ---------------------------------------------------------------- linearity

  lemma AddCommutes(a: bv8, b: bv8)
    ensures Add(a, b) == Add(b, a)
  {
  }

  lemma AddAssociates(a: bv8, b: bv8, c: bv8)
    ensures Add(Add(a, b), c) == Add(a, Add(b, c))
  {
  }

  lemma AddSwap(a: bv8, b: bv8, c: bv8, d: bv8)
    ensures Add(Add(a, b), Add(c, d)) == Add(Add(a, c), Add(b, d))
  {
    hide Add;
    AddAssociates(a, b, Add(c, d));
    AddAssociates(b, c, d);
    AddCommutes(b, c);
    AddAssociates(c, b, d);
    AddAssociates(a, c, Add(b, d));
  }

  lemma AddRotates(a: bv8, b: bv8, c: bv8, d: bv8)
    ensures Add(Add(b, c), Add(d, a)) == Add(Add(a, b), Add(c, d))
    ensures Add(Add(c, d), Add(a, b)) == Add(Add(a, b), Add(c, d))
    ensures Add(Add(d, a), Add(b, c)) == Add(Add(a, b), Add(c, d))
  {
    hide Add;
    AddCommutes(d, a);
    AddCommutes(c, d);
    AddSwap(a, d, b, c);
    AddCommutes(Add(b, c), Add(a, d));
    AddCommutes(Add(c, d), Add(a, b));
  }

  /** A sum taken from the left is the sum in pairs, starting from any of its terms. */
  lemma AddInAnyOrder(a: bv8, b: bv8, c: bv8, d: bv8)
    ensures Add(Add(Add(a, b), c), d) == Add(Add(a, b), Add(c, d)) == Add(Add(b, c), Add(d, a))
    ensures Add(Add(Add(a, b), c), d) == Add(Add(c, d), Add(a, b)) == Add(Add(d, a), Add(b, c))
  {
    hide Add;
    AddAssociates(Add(a, b), c, d);
    AddRotates(a, b, c, d);
  }

  lemma Mul2IsLinear(a: bv8, b: bv8)
    ensures Mul2(Add(a, b)) == Add(Mul2(a), Mul2(b))
  {
    ShiftIsLinear(a, b);
    if a & 0x80 == 0 {
      if b & 0x80 == 0 {
        assert Mul2(Add(a, b)) == Add(Mul2(a), Mul2(b));
      } else {
        assert Mul2(Add(a, b)) == Add(Mul2(a), Mul2(b));
      }
    } else {
      if b & 0x80 == 0 {
        assert Mul2(Add(a, b)) == Add(Mul2(a), Mul2(b));
      } else {
        assert Mul2(Add(a, b)) == Add(Mul2(a), Mul2(b));
      }
    }
  }

  lemma ShiftIsLinear(a: bv8, b: bv8)
    ensures (a ^ b) << 1 == (a << 1) ^ (b << 1) && (a ^ b) & 0x80 == (a & 0x80) ^ (b & 0x80)
  {
  }

  lemma Mul4IsLinear(a: bv8, b: bv8)
    ensures Mul4(Add(a, b)) == Add(Mul4(a), Mul4(b))
  {
    hide Add, Mul2;
    Mul2IsLinear(a, b);
    Mul2IsLinear(Mul2(a), Mul2(b));
  }

  lemma Mul8IsLinear(a: bv8, b: bv8)
    ensures Mul8(Add(a, b)) == Add(Mul8(a), Mul8(b))
  {
    hide Add, Mul2, Mul4;
    Mul4IsLinear(a, b);
    Mul2IsLinear(Mul4(a), Mul4(b));
  }

  lemma Mul9IsLinear(a: bv8, b: bv8)
    ensures Mul9(Add(a, b)) == Add(Mul9(a), Mul9(b))
  {
    hide Add, Mul8;
    Mul8IsLinear(a, b);
    AddSwap(Mul8(a), Mul8(b), a, b);
  }

  lemma MulBIsLinear(a: bv8, b: bv8)
    ensures MulB(Add(a, b)) == Add(MulB(a), MulB(b))
  {
    hide Add, Mul2, Mul8;
    Mul8IsLinear(a, b);
    Mul2IsLinear(a, b);
    AddSwap(Mul2(a), Mul2(b), a, b);
    AddSwap(Mul8(a), Mul8(b), Mul3(a), Mul3(b));
  }

  lemma MulDIsLinear(a: bv8, b: bv8)
    ensures MulD(Add(a, b)) == Add(MulD(a), MulD(b))
  {
    hide Add, Mul4, Mul8;
    Mul8IsLinear(a, b);
    Mul4IsLinear(a, b);
    AddSwap(Mul4(a), Mul4(b), a, b);
    AddSwap(Mul8(a), Mul8(b), Add(Mul4(a), a), Add(Mul4(b), b));
  }

  lemma MulEIsLinear(a: bv8, b: bv8)
    ensures MulE(Add(a, b)) == Add(MulE(a), MulE(b))
  {
    hide Add, Mul2, Mul4, Mul8;
    Mul8IsLinear(a, b);
    Mul4IsLinear(a, b);
    Mul2IsLinear(a, b);
    AddSwap(Mul4(a), Mul4(b), Mul2(a), Mul2(b));
    AddSwap(Mul8(a), Mul8(b), Add(Mul4(a), Mul2(a)), Add(Mul4(b), Mul2(b)));
  }

  lemma ProductsOfOneByte(b: bv8)
    ensures Add(Add(MulE(Mul2(b)), MulB(b)), Add(MulD(b), Mul9(Mul3(b)))) == b
    ensures Add(Add(MulE(Mul3(b)), MulB(Mul2(b))), Add(MulD(b), Mul9(b))) == 0
    ensures Add(Add(MulE(b), MulB(Mul3(b))), Add(MulD(Mul2(b)), Mul9(b))) == 0
    ensures Add(Add(MulE(b), MulB(b)), Add(MulD(Mul3(b)), Mul9(Mul2(b)))) == 0
  {
    hide Add, Mul2, Mul3, Mul9, MulB, MulD, MulE;
    OwnProducts(b);
    OtherProducts(b);
  }

  lemma OwnProducts(b: bv8)
    ensures Add(Add(MulE(Mul2(b)), MulB(b)), Add(MulD(b), Mul9(Mul3(b)))) == b
    ensures Add(Add(MulE(Mul3(b)), MulB(Mul2(b))), Add(MulD(b), Mul9(b))) == 0
  {
  }

  lemma OtherProducts(b: bv8)
    ensures Add(Add(MulE(b), MulB(Mul3(b))), Add(MulD(Mul2(b)), Mul9(b))) == 0
    ensures Add(Add(MulE(b), MulB(b)), Add(MulD(Mul3(b)), Mul9(Mul2(b)))) == 0
  {
  }

  // ---------------------------------------------------------------- columns

  datatype Column = Column(b0: bv8, b1: bv8, b2: bv8, b3: bv8)

  function XorColumn(a: Column, b: Column): Column {
    Column(Add(a.b0, b.b0), Add(a.b1, b.b1), Add(a.b2, b.b2), Add(a.b3, b.b3))
  }

  /** One byte of MixColumns: section 5.1.3 of FIPS 197. */
  function MixByte(a: bv8, b: bv8, c: bv8, d: bv8): bv8 {
    Add(Add(Mul2(a), Mul3(b)), Add(c, d))
  }

  function MixColumn(c: Column): Column {
    Column(MixByte(c.b0, c.b1, c.b2, c.b3), MixByte(c.b1, c.b2, c.b3, c.b0),
           MixByte(c.b2, c.b3, c.b0, c.b1), MixByte(c.b3, c.b0, c.b1, c.b2))
  }

  /** One byte of InvMixColumns: section 5.3.3 of FIPS 197. */
  function InvMixByte(a: bv8, b: bv8, c: bv8, d: bv8): bv8 {
    Add(Add(MulE(a), MulB(b)), Add(MulD(c), Mul9(d)))
  }

  function InvMixColumn(c: Column): Column {
    Column(InvMixByte(c.b0, c.b1, c.b2, c.b3), InvMixByte(c.b1, c.b2, c.b3, c.b0),
           InvMixByte(c.b2, c.b3, c.b0, c.b1), InvMixByte(c.b3, c.b0, c.b1, c.b2))
  }

  lemma InvMixByteIsLinear(a: bv8, b: bv8, c: bv8, d: bv8, w: bv8, x: bv8, y: bv8, z: bv8)
    ensures InvMixByte(Add(a, w), Add(b, x), Add(c, y), Add(d, z)) ==
              Add(InvMixByte(a, b, c, d), InvMixByte(w, x, y, z))
  {
    hide Add, MulE, MulB, MulD, Mul9;
    MulEIsLinear(a, w);
    MulBIsLinear(b, x);
    MulDIsLinear(c, y);
    Mul9IsLinear(d, z);
    AddSwap(MulE(a), MulE(w), MulB(b), MulB(x));
    AddSwap(MulD(c), MulD(y), Mul9(d), Mul9(z));
    AddSwap(Add(MulE(a), MulB(b)), Add(MulE(w), MulB(x)), Add(MulD(c), Mul9(d)), Add(MulD(y), Mul9(z)));
  }

  /** InvMixColumns distributes over the addition of a round key. */
  lemma InvMixColumnIsLinear(a: Column, b: Column)
    ensures InvMixColumn(XorColumn(a, b)) == XorColumn(InvMixColumn(a), InvMixColumn(b))
  {
    hide Add, InvMixByte;
    InvMixByteIsLinear(a.b0, a.b1, a.b2, a.b3, b.b0, b.b1, b.b2, b.b3);
    InvMixByteIsLinear(a.b1, a.b2, a.b3, a.b0, b.b1, b.b2, b.b3, b.b0);
    InvMixByteIsLinear(a.b2, a.b3, a.b0, a.b1, b.b2, b.b3, b.b0, b.b1);
    InvMixByteIsLinear(a.b3, a.b0, a.b1, a.b2, b.b3, b.b0, b.b1, b.b2);
  }

  lemma AddZeros(a: bv8)
    ensures Add(Add(a, 0), Add(0, 0)) == a
  {
  }

  lemma InvMixByteUndoes(a: bv8, b: bv8, c: bv8, d: bv8)
    ensures InvMixByte(MixByte(a, b, c, d), MixByte(b, c, d, a), MixByte(c, d, a, b), MixByte(d, a, b, c)) == a
  {
    hide Add, Mul2, Mul3, MulE, MulB, MulD, Mul9;
    // Regroup the mixed bytes as sums of what `a`, `b`, `c` and `d` each contribute.
    AddRotates(a, Mul2(b), Mul3(c), d);
    AddRotates(a, b, Mul2(c), Mul3(d));
    AddRotates(Mul3(a), b, c, Mul2(d));
    InvMixByteIsLinear(Add(Mul2(a), Mul3(b)), Add(a, Mul2(b)), Add(a, b), Add(Mul3(a), b),
                       Add(c, d), Add(Mul3(c), d), Add(Mul2(c), Mul3(d)), Add(c, Mul2(d)));
    InvMixByteIsLinear(Mul2(a), a, a, Mul3(a), Mul3(b), Mul2(b), b, b);
    InvMixByteIsLinear(c, Mul3(c), Mul2(c), c, d, d, Mul3(d), Mul2(d));
    ProductsOfOneByte(a);
    ProductsOfOneByte(b);
    ProductsOfOneByte(c);
    ProductsOfOneByte(d);
    AddZeros(a);
  }

  lemma InvMixColumnUndoes(c: Column)
    ensures InvMixColumn(MixColumn(c)) == c
  {
    hide MixByte, InvMixByte;
    InvMixByteUndoes(c.b0, c.b1, c.b2, c.b3);
    InvMixByteUndoes(c.b1, c.b2, c.b3, c.b0);
    InvMixByteUndoes(c.b2, c.b3, c.b0, c.b1);
    InvMixByteUndoes(c.b3, c.b0, c.b1, c.b2);
  }

  lemma XorColumnCancels(a: Column, k: Column)
    ensures XorColumn(XorColumn(a, k), k) == a
  {
  }

  function SubColumn(c: Column): Column {
    Column(SBox(c.b0), SBox(c.b1), SBox(c.b2), SBox(c.b3))
  }

  function RotColumn(c: Column): Column {
    Column(c.b1, c.b2, c.b3, c.b0)
  }

  // ---------------------------------------------------------------- words

  function Byte0(w: bv32): bv8 {
    (w >> 24) as bv8
  }

  function Byte1(w: bv32): bv8 {
    ((w >> 16) & 0xff) as bv8
  }

  function Byte2(w: bv32): bv8 {
    ((w >> 8) & 0xff) as bv8
  }

  function Byte3(w: bv32): bv8 {
    (w & 0xff) as bv8
  }

  /** The column a word holds, first byte in the top bits. */
  function Unpack(w: bv32): Column {
    Column(Byte0(w), Byte1(w), Byte2(w), Byte3(w))
  }

  function Word(b0: bv8, b1: bv8, b2: bv8, b3: bv8): bv32 {
    ((b0 as bv32) << 24) ^ ((b1 as bv32) << 16) ^ ((b2 as bv32) << 8) ^ (b3 as bv32)
  }

  function Pack(c: Column): bv32 {
    Word(c.b0, c.b1, c.b2, c.b3)
  }

  lemma UnpackPack(c: Column)
    ensures Unpack(Pack(c)) == c
  {
  }

  function Xor32(v: bv32, w: bv32): bv32 {
    v ^ w
  }

  lemma UnpackXor(v: bv32, w: bv32)
    ensures Unpack(Xor32(v, w)) == XorColumn(Unpack(v), Unpack(w))
  {
  }

  // ---------------------------------------------------------------- the lookup tables

  function Te0(x: bv8): bv32 {
    Word(Mul2(SBox(x)), SBox(x), SBox(x), Mul3(SBox(x)))
  }

  function Te1(x: bv8): bv32 {
    Word(Mul3(SBox(x)), Mul2(SBox(x)), SBox(x), SBox(x))
  }

  function Te2(x: bv8): bv32 {
    Word(SBox(x), Mul3(SBox(x)), Mul2(SBox(x)), SBox(x))
  }

  function Te3(x: bv8): bv32 {
    Word(SBox(x), SBox(x), Mul3(SBox(x)), Mul2(SBox(x)))
  }

  function Te4(x: bv8): bv32 {
    Word(SBox(x), SBox(x), SBox(x), SBox(x))
  }

  function Td0(x: bv8): bv32 {
    Word(MulE(InvSBox(x)), Mul9(InvSBox(x)), MulD(InvSBox(x)), MulB(InvSBox(x)))
  }

  function Td1(x: bv8): bv32 {
    Word(MulB(InvSBox(x)), MulE(InvSBox(x)), Mul9(InvSBox(x)), MulD(InvSBox(x)))
  }

  function Td2(x: bv8): bv32 {
    Word(MulD(InvSBox(x)), MulB(InvSBox(x)), MulE(InvSBox(x)), Mul9(InvSBox(x)))
  }

  function Td3(x: bv8): bv32 {
    Word(Mul9(InvSBox(x)), MulD(InvSBox(x)), MulB(InvSBox(x)), MulE(InvSBox(x)))
  }

  function Td4(x: bv8): bv32 {
    Word(InvSBox(x), InvSBox(x), InvSBox(x), InvSBox(x))
  }

  /** Four table entries added up. */
  function Sum(v: bv32, w: bv32, x: bv32, y: bv32): bv32 {
    Xor32(Xor32(Xor32(v, w), x), y)
  }

  lemma UnpackSum(v: bv32, w: bv32, x: bv32, y: bv32)
    ensures Unpack(Sum(v, w, x, y)) == XorColumn(XorColumn(XorColumn(Unpack(v), Unpack(w)), Unpack(x)), Unpack(y))
  {
    hide Unpack, XorColumn, Xor32;
    UnpackXor(v, w);
    UnpackXor(Xor32(v, w), x);
    UnpackXor(Xor32(Xor32(v, w), x), y);
  }

  /** Four table lookups are SubBytes and MixColumns of one column. */
  lemma EncTables(a: bv8, b: bv8, c: bv8, d: bv8)
    ensures Unpack(Sum(Te0(a), Te1(b), Te2(c), Te3(d))) == MixColumn(SubColumn(Column(a, b, c, d)))
  {
    hide SBox, Mul2, Mul3, Add, Unpack, Word, Sum;
    UnpackSum(Te0(a), Te1(b), Te2(c), Te3(d));
    UnpackPack(Column(Mul2(SBox(a)), SBox(a), SBox(a), Mul3(SBox(a))));
    UnpackPack(Column(Mul3(SBox(b)), Mul2(SBox(b)), SBox(b), SBox(b)));
    UnpackPack(Column(SBox(c), Mul3(SBox(c)), Mul2(SBox(c)), SBox(c)));
    UnpackPack(Column(SBox(d), SBox(d), Mul3(SBox(d)), Mul2(SBox(d))));
    AddInAnyOrder(Mul2(SBox(a)), Mul3(SBox(b)), SBox(c), SBox(d));
    AddInAnyOrder(SBox(a), Mul2(SBox(b)), Mul3(SBox(c)), SBox(d));
    AddInAnyOrder(SBox(a), SBox(b), Mul2(SBox(c)), Mul3(SBox(d)));
    AddInAnyOrder(Mul3(SBox(a)), SBox(b), SBox(c), Mul2(SBox(d)));
  }

  function InvSubColumn(c: Column): Column {
    Column(InvSBox(c.b0), InvSBox(c.b1), InvSBox(c.b2), InvSBox(c.b3))
  }

  lemma DecTables(a: bv8, b: bv8, c: bv8, d: bv8)
    ensures Unpack(Sum(Td0(a), Td1(b), Td2(c), Td3(d))) == InvMixColumn(InvSubColumn(Column(a, b, c, d)))
  {
    hide InvSBox, MulE, MulB, MulD, Mul9, Add, Unpack, Word, Sum;
    var p, q, r, s := InvSBox(a), InvSBox(b), InvSBox(c), InvSBox(d);
    UnpackSum(Td0(a), Td1(b), Td2(c), Td3(d));
    UnpackPack(Column(MulE(p), Mul9(p), MulD(p), MulB(p)));
    UnpackPack(Column(MulB(q), MulE(q), Mul9(q), MulD(q)));
    UnpackPack(Column(MulD(r), MulB(r), MulE(r), Mul9(r)));
    UnpackPack(Column(Mul9(s), MulD(s), MulB(s), MulE(s)));
    AddInAnyOrder(MulE(p), MulB(q), MulD(r), Mul9(s));
    AddInAnyOrder(Mul9(p), MulE(q), MulB(r), MulD(s));
    AddInAnyOrder(MulD(p), Mul9(q), MulE(r), MulB(s));
    AddInAnyOrder(MulB(p), MulD(q), Mul9(r), MulE(s));
  }

  /** One byte of each of four entries: the entries of the last round and of the key expansion. */
  function MaskedSum(v: bv32, w: bv32, x: bv32, y: bv32): bv32 {
    Sum(v & 0xff000000, w & 0x00ff0000, x & 0x0000ff00, y & 0x000000ff)
  }

  lemma MaskedBytes(p: bv8, q: bv8, r: bv8, s: bv8)
    ensures Unpack(MaskedSum(Word(p, p, p, p), Word(q, q, q, q), Word(r, r, r, r), Word(s, s, s, s))) ==
              Column(p, q, r, s)
  {
  }
}
