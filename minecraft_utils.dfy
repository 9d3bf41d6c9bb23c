/** The map frontend's `MinecraftUtils`: converting between map pixels and
    block coordinates, and showing a world time (in ticks) as a clock.
    JavaScript numbers are modelled as integers. Mouse positions and typed
    coordinates can be fractional; the two lemmas after the conversions
    say what that changes: a fractional pixel floors to the same block as
    its whole part, while a fractional block can land on a pixel no whole
    block reaches. */
module MinecraftUtils {
  import opened JavaInts
  import opened JavaStrings

  /** A point on the map: pixels, or blocks. */
  datatype Point = Point(x: int, z: int)

  /** The tile size the map is built for: 1024 pixels for 512 blocks. */
  const DefaultTileSize := 1024

  /** `Math.floor(a / b)` for a positive divisor; Dafny's `/` rounds toward
      negative infinity there. */
  function FloorDiv(a: int, b: int): int
    requires b > 0
  {
    a / b
  }

  /** `pixelsToMinecraftCoords`: two pixels per block, and the map's
      vertical axis points the other way from the world's z. */
  function PixelsToBlocks(pixelX: int, pixelZ: int): Point
  {
    Point(FloorDiv(pixelX, 2), -FloorDiv(pixelZ, 2))
  }

  /** `minecraftCoordsToPixels` with the configured tile size:
      `tileSize / 512` pixels per block. */
  function BlocksToPixels(blockX: int, blockZ: int, tileSize: int): Point
  {
    Point(FloorDiv(blockX * tileSize, 512), -FloorDiv(blockZ * tileSize, 512))
  }

  /** With the default tile size, a block's pixel position converts back to the block. */
  lemma BlockPixelRoundTrip(blockX: int, blockZ: int)
    ensures var p := BlocksToPixels(blockX, blockZ, DefaultTileSize);
            PixelsToBlocks(p.x, p.z) == Point(blockX, blockZ)
  {
    assert blockX * 1024 == (blockX * 2) * 512;
    assert blockZ * 1024 == (blockZ * 2) * 512;
    MulMod2(blockX * 2, 512);
    MulMod2(blockZ * 2, 512);
    MulMod2(blockX, 2);
    MulMod2(-blockZ * 2 / 2, 2);
    assert -(blockZ * 2) == (-blockZ) * 2;
    MulMod2(-blockZ, 2);
  }

  /** A multiple of `m` divides exactly, for any sign. */
  lemma MulMod2(k: int, m: int)
    requires m > 0
    ensures (k * m) / m == k
  {
    DivModUnique(k * m, m, k, 0);
  }

  /** Going from pixels to blocks and back snaps each coordinate down to an even pixel. */
  lemma PixelSnap(pixelX: int, pixelZ: int)
    ensures var b := PixelsToBlocks(pixelX, pixelZ);
            var p := BlocksToPixels(b.x, b.z, DefaultTileSize);
            p.x % 2 == 0 && pixelX - 1 <= p.x <= pixelX &&
            p.z % 2 == 0 && pixelZ - 1 <= p.z <= pixelZ
  {
    var b := PixelsToBlocks(pixelX, pixelZ);
    assert b.x * 1024 == (b.x * 2) * 512;
    MulMod2(b.x * 2, 512);
    assert b.z * 1024 == (b.z * 2) * 512;
    MulMod2(b.z * 2, 512);
    assert pixelX == 2 * (pixelX / 2) + pixelX % 2;
    assert pixelZ == 2 * (pixelZ / 2) + pixelZ % 2;
    MulMod(pixelX / 2 - pixelX / 2, 2);
  }

  /** The pixel-to-block conversion assumes two pixels per block, so with
      any other tile size the two conversions disagree: at 2048 pixels per
      tile, block 1 is drawn at pixel 4, which reads back as block 2. */
  lemma OtherTileSizeDisagrees()
    ensures BlocksToPixels(1, 0, 2048) == Point(4, 0)
    ensures PixelsToBlocks(4, 0) == Point(2, 0)
  {
  }

  /** A fractional pixel (a mouse position on the map) converts to the
      block its whole part converts to: flooring once loses nothing. */
  lemma FractionalPixelFloors(x: real)
    ensures (x / 2.0).Floor == FloorDiv(x.Floor, 2)
  {
    var n := x.Floor;
    var k := n / 2;
    assert n == 2 * k + n % 2;
    assert (2 * k) as real <= x < (2 * k + 2) as real;
    assert k as real <= x / 2.0 < (k + 1) as real;
  }

  /** A fractional block (typed into the search bar) can land on a pixel no
      whole block reaches: block 10.5 is drawn at pixel 21, and every whole
      block at an even pixel. */
  lemma FractionalBlockPixel()
    ensures (10.5 * (DefaultTileSize as real / 512.0)).Floor == 21
    ensures forall b: int :: BlocksToPixels(b, 0, DefaultTileSize).x != 21
  {
    forall b: int
      ensures BlocksToPixels(b, 0, DefaultTileSize).x == 2 * b
    {
      assert b * 1024 == (b * 2) * 512;
      MulMod2(b * 2, 512);
    }
  }

  // ----- clock -----

  /** Minutes since midnight: the day starts at 6:00 on tick 0, a day is
      24000 ticks, and JavaScript's `%` keeps the dividend's sign. */
  function TotalMinutes(ticks: int): int
  {
    FloorDiv(JavaRem(ticks + 6000, 24000) * 1440, 24000)
  }

  function Hours(ticks: int): int { FloorDiv(TotalMinutes(ticks), 60) }

  function Minutes(ticks: int): int { JavaRem(TotalMinutes(ticks), 60) }

  /** For every tick from -6000 on, the clock reads a time of day. */
  lemma ClockInRange(ticks: int)
    requires ticks >= -6000
    ensures 0 <= TotalMinutes(ticks) < 1440
    ensures 0 <= Hours(ticks) <= 23 && 0 <= Minutes(ticks) <= 59
    ensures Hours(ticks) * 60 + Minutes(ticks) == TotalMinutes(ticks)
  {
    JavaDivRem(ticks + 6000, 24000);
    var r := JavaRem(ticks + 6000, 24000);
    assert 0 <= r < 24000;
    assert r * 1440 < 24000 * 1440;
    JavaDivRem(TotalMinutes(ticks), 60);
  }

  /** The clock repeats every day. */
  lemma ClockDaily(ticks: int)
    requires ticks >= -6000
    ensures TotalMinutes(ticks + 24000) == TotalMinutes(ticks)
  {
    JavaDivRem(ticks + 6000, 24000);
    JavaDivRem(ticks + 30000, 24000);
    DivStep(ticks + 30000, 24000);
  }

  /** `String.prototype.padStart(2, "0")`. */
  function Pad2(s: string): (r: string)
    ensures |r| == if |s| >= 2 then |s| else 2
  {
    if |s| >= 2 then s else "00"[..2 - |s|] + s
  }

  /** `formatMinecraftTime`: "HH:MM". */
  function FormatTime24(ticks: int): string
  {
    Pad2(IntToString(Hours(ticks))) + ":" + Pad2(IntToString(Minutes(ticks)))
  }

  /** A number from 0 to 99, padded to two digits, and its value read back. */
  lemma {:induction false} Pad2Value(n: int)
    requires 0 <= n <= 99
    ensures |Pad2(IntToString(n))| == 2 && AllDigits(Pad2(IntToString(n)))
    ensures DigitsValue(Pad2(IntToString(n))) == n
  {
    var s := IntToString(n);
    NatToStringValue(n);
    if n < 10 {
      assert s == [DigitChar(n)];
      var p := Pad2(s);
      assert p == ['0', DigitChar(n)];
      assert p[..1] == ['0'];
      assert DigitsValue(p[..1]) == 0 by {
        assert p[..1][..0] == [];
      }
    } else {
      assert n / 10 < 10;
      assert s == [DigitChar(n / 10)] + [DigitChar(n % 10)];
    }
  }

  /** From tick -6000 on, the 24-hour clock is five characters "HH:MM"
      whose two fields read back as the hour and the minute. */
  lemma FormatTime24Fields(ticks: int)
    requires ticks >= -6000
    ensures var r := FormatTime24(ticks);
            |r| == 5 && r[2] == ':' && AllDigits(r[..2]) && AllDigits(r[3..]) &&
            DigitsValue(r[..2]) == Hours(ticks) && DigitsValue(r[3..]) == Minutes(ticks)
  {
    ClockInRange(ticks);
    Pad2Value(Hours(ticks));
    Pad2Value(Minutes(ticks));
    var r := FormatTime24(ticks);
    assert r[..2] == Pad2(IntToString(Hours(ticks)));
    assert r[3..] == Pad2(IntToString(Minutes(ticks)));
  }

  /** Tick 0 is six in the morning. */
  lemma SunriseAtSix()
    ensures FormatTime24(0) == "06:00"
  {
    ClockAtSix();
    PadDigit(6);
    PadDigit(0);
  }

  /** Tick 18000 is midnight. */
  lemma MidnightAtEighteenThousand()
    ensures FormatTime24(18000) == "00:00"
  {
    ClockAtMidnight();
    PadDigit(0);
  }

  lemma ClockAtSix()
    ensures Hours(0) == 6 && Minutes(0) == 0
  {
    assert JavaDiv(6000, 24000) == 0;
    assert TotalMinutes(0) == 360 by {
      assert JavaRem(6000, 24000) * 1440 == 8640000;
    }
    assert JavaDiv(360, 60) == 6;
  }

  lemma ClockAtMidnight()
    ensures Hours(18000) == 0 && Minutes(18000) == 0
  {
    assert JavaRem(24000, 24000) == 0 by {
      assert Abs(24000) / Abs(24000) == 1;
    }
    assert TotalMinutes(18000) == 0 by {
      assert JavaRem(18000 + 6000, 24000) * 1440 == 0;
    }
    assert JavaDiv(0, 60) == 0;
  }

  lemma ClockAtNoon()
    ensures Hours(6000) == 12 && Minutes(6000) == 0
  {
    assert JavaDiv(12000, 24000) == 0;
    assert TotalMinutes(6000) == 720 by {
      assert JavaRem(12000, 24000) * 1440 == 17280000;
    }
    assert JavaDiv(720, 60) == 12;
  }

  /** A single digit is padded with one leading zero. */
  lemma PadDigit(d: nat)
    requires d < 10
    ensures Pad2(IntToString(d)) == ['0', DigitChar(d)]
  {
    assert IntToString(d) == [DigitChar(d)];
    assert "00"[..1] == "0";
  }

  /** The 12-hour clock's hour: the 24-hour hour modulo 12, with 0 shown as 12. */
  function Hour12(hours: int): int
  {
    var h := JavaRem(hours, 12);
    if h == 0 then 12 else h
  }

  /** `formatMinecraftTime12h`: an unpadded hour, padded minutes, and
      "PM" from the twelfth hour on. */
  function FormatTime12(ticks: int): string
  {
    var hours := Hours(ticks);
    IntToString(Hour12(hours)) + ":" + Pad2(IntToString(Minutes(ticks))) + (if hours >= 12 then " PM" else " AM")
  }

  /** From tick -6000 on, the 12-hour clock shows an hour from 1 to 12 that
      agrees with the 24-hour hour modulo 12, the same minutes, and "PM"
      exactly in the afternoon and evening. */
  lemma FormatTime12Fields(ticks: int)
    requires ticks >= -6000
    ensures 1 <= Hour12(Hours(ticks)) <= 12
    ensures Hour12(Hours(ticks)) % 12 == Hours(ticks) % 12
    ensures var r := FormatTime12(ticks);
            var hourText := IntToString(Hour12(Hours(ticks)));
            r[..|hourText|] == hourText && r[|hourText|] == ':' &&
            DigitsValue(r[|hourText| + 1..|hourText| + 3]) == Minutes(ticks) &&
            (r[|r| - 2..] == "PM" <==> Hours(ticks) >= 12)
  {
    ClockInRange(ticks);
    JavaDivRem(Hours(ticks), 12);
    Pad2Value(Minutes(ticks));
    var hourText := IntToString(Hour12(Hours(ticks)));
    var minuteText := Pad2(IntToString(Minutes(ticks)));
    var suffix := if Hours(ticks) >= 12 then " PM" else " AM";
    var r := FormatTime12(ticks);
    assert r == hourText + [':'] + minuteText + suffix;
    assert r[|hourText| + 1..|hourText| + 3] == minuteText;
    assert r[|r| - 2..] == suffix[1..];
  }

  /** Noon shows hour 12, in the afternoon. */
  lemma NoonIsTwelvePm()
    ensures FormatTime12(6000) == "12:00 PM"
  {
    ClockAtNoon();
    TwelveOClock(6000);
  }

  /** Midnight shows hour 12, in the morning. */
  lemma MidnightIsTwelveAm()
    ensures FormatTime12(18000) == "12:00 AM"
  {
    ClockAtMidnight();
    TwelveOClock(18000);
  }

  /** On the hour at midnight or noon the 12-hour clock reads "12:00". */
  lemma TwelveOClock(ticks: int)
    requires (Hours(ticks) == 0 || Hours(ticks) == 12) && Minutes(ticks) == 0
    ensures FormatTime12(ticks) == "12:00" + (if Hours(ticks) >= 12 then " PM" else " AM")
  {
    var h := Hours(ticks);
    if h == 0 {
      assert JavaDiv(0, 12) == 0;
    } else {
      assert JavaDiv(12, 12) == 1;
    }
    assert Hour12(h) == 12;
    TwelveText();
    PadDigit(0);
  }

  lemma TwelveText()
    ensures IntToString(12) == "12"
  {
    assert NatToString(12) == NatToString(1) + [DigitChar(2)];
  }

  // ----- day and night -----

  /** `TimeIcon`. */
  datatype TimeIcon = Day | Night | Sunrise | Sunset

  /** `getDayNightIcon`, checked in the source's order. */
  function DayNightIcon(ticks: int): TimeIcon
  {
    if ticks >= 23000 || ticks < 1000 then Sunrise
    else if ticks > 1000 && ticks < 12000 then Day
    else if ticks >= 12000 && ticks < 14000 then Sunset
    else Night
  }

  /** The icon by tick range; the single tick 1000 falls through every
      earlier test and shows the night icon. */
  lemma DayNightRanges(ticks: int)
    ensures DayNightIcon(ticks) == Sunrise <==> ticks < 1000 || ticks >= 23000
    ensures DayNightIcon(ticks) == Day <==> 1000 < ticks < 12000
    ensures DayNightIcon(ticks) == Sunset <==> 12000 <= ticks < 14000
    ensures DayNightIcon(ticks) == Night <==> ticks == 1000 || 14000 <= ticks < 23000
  {
  }
}
