/** The timing half of lcd/lcd.go: the four-mode state machine that UpdateLCD
    and setLCDStatus drive, and the I/O registers it reads and writes.

    The LCD cycles through OAM scan (mode 2, 80 cycles), pixel transfer
    (mode 3, 172 cycles) and horizontal blank (mode 0, 204 cycles) once per
    line, and through vertical blank (mode 1, 456 cycles per line) once per
    frame. It keeps the mode, a cycle counter and the current line, mirrors
    the line in LY, shows the mode and the LY = LYC coincidence in STAT, and
    requests interrupts through IF. */
module LcdTiming {
  import opened Bytes

  // ---------------------------------------------------------------------------
  // I/O registers

  /** Addresses of the registers the controller touches. */
  const LcdcAddr: bv16 := 0xFF40
  const StatAddr: bv16 := 0xFF41
  const LyAddr: bv16 := 0xFF44
  const LycAddr: bv16 := 0xFF45
  const IfAddr: bv16 := 0xFF0F

  /** LCDC bit 7: the display is on. */
  const DisplayOn: bv8 := 0x80

  /** STAT bits 1:0 show the mode, bit 2 the LY = LYC coincidence; bits 3, 4,
      5 and 6 enable the STAT interrupt on entering modes 0, 1 and 2 and on
      coincidence. */
  const ModeBits: bv8 := 0x03
  const CoincidenceBit: bv8 := 0x04
  const HBlankSource: bv8 := 0x08
  const VBlankSource: bv8 := 0x10
  const OamSource: bv8 := 0x20
  const CoincidenceSource: bv8 := 0x40

  /** IF bit 0 requests the VBlank interrupt, bit 1 the LCD STAT interrupt. */
  const VBlankRequest: bv8 := 0x01
  const StatRequest: bv8 := 0x02

  /** The registers the controller reads (LCDC, LYC) and writes (STAT, LY,
      IF), each a byte B of memory. */
  datatype IoPorts<B> = IoPorts(lcdc: B, stat: B, ly: B, lyc: B, iflag: B)

  type Ports = IoPorts<bv8>

  /** The registers as they sit in memory. */
  function ReadPorts(mem: Mem): (p: Ports)
    ensures p.lcdc == Load(mem, LcdcAddr) && p.stat == Load(mem, StatAddr)
    ensures p.ly == Load(mem, LyAddr) && p.lyc == Load(mem, LycAddr)
    ensures p.iflag == Load(mem, IfAddr)
  {
    IoPorts(Load(mem, LcdcAddr), Load(mem, StatAddr), Load(mem, LyAddr),
            Load(mem, LycAddr), Load(mem, IfAddr))
  }

  /** Write back the three registers the controller changes. */
  function WritePorts(mem: Mem, p: Ports): (r: Mem)
    ensures Load(r, StatAddr) == p.stat && Load(r, LyAddr) == p.ly
    ensures Load(r, IfAddr) == p.iflag
    ensures forall a: bv16 :: a != StatAddr && a != LyAddr && a != IfAddr ==>
              Load(r, a) == Load(mem, a)
  {
    Store(Store(Store(mem, StatAddr, p.stat), LyAddr, p.ly), IfAddr, p.iflag)
  }

  // ---------------------------------------------------------------------------
  // Controller state

  /** GBLCD without its image: the mode (a uint8 that only ever holds 0 to
      3), modeClock (an int16) and currentLine (a uint16). */
  datatype Lcd = Lcd(mode: nat, modeClock: int, currentLine: nat)

  /** The controller together with its registers. */
  datatype Video = Video(lcd: Lcd, ports: Ports)

  /** Go's conversion to int16: the value wrapped into [-32768, 32767]. */
  function Int16(x: int): (r: int)
    ensures -0x8000 <= r < 0x8000
    ensures (r - x) % 0x1_0000 == 0
  {
    (x + 0x8000) % 0x1_0000 - 0x8000
  }

  /** `currentLine++` on a uint16. */
  function NextLine(line: nat): (r: nat)
    ensures r < 0x1_0000
    ensures line < 0xFFFF ==> r == line + 1
  {
    (line + 1) % 0x1_0000
  }

  /** InitLCD: only the mode needs a non-zero start value. */
  function InitLCD(s: Lcd): (r: Lcd)
    ensures r.mode == 2 && r.modeClock == s.modeClock && r.currentLine == s.currentLine
  {
    s.(mode := 2)
  }

  /** The state of a freshly allocated GBLCD after InitLCD. */
  const PowerOn: Lcd := InitLCD(Lcd(0, 0, 0))

  /** lcdEnabled: 1 when LCDC bit 7 is set, else 0. */
  function LcdEnabled(lcdc: bv8): (r: bv8)
    ensures r == 0 || r == 1
    ensures r == 1 <==> lcdc & DisplayOn != 0
  {
    if lcdc & DisplayOn != 0 then 1 else 0
  }

  /** setLCDInterrupt: request the LCD STAT interrupt, IF bit 1. */
  function SetLCDInterrupt(p: Ports): (r: Ports)
    ensures r == p.(iflag := r.iflag)
    ensures r.iflag & StatRequest == StatRequest
    ensures r.iflag & !StatRequest == p.iflag & !StatRequest
  {
    p.(iflag := p.iflag | StatRequest)
  }

  /** setLCDInterrupt when STAT enables the given source. */
  function InterruptIfEnabled(p: Ports, source: bv8): (r: Ports)
    ensures r == p.(iflag := r.iflag)
    ensures r.iflag & p.iflag == p.iflag && r.iflag & !StatRequest == p.iflag & !StatRequest
    ensures (r.iflag & StatRequest != 0) <==> (p.iflag & StatRequest != 0 || p.stat & source != 0)
  {
    if p.stat & source != 0 then SetLCDInterrupt(p) else p
  }

  // ---------------------------------------------------------------------------
  // The four modes of setLCDStatus

  /** The register writes of each transition. Entering vertical blank: LY
      advances, STAT shows mode 1, VBlank is requested, and STAT bit 4 may
      request the STAT interrupt. */
  function EnterVBlank(p: Ports): (r: Ports)
    ensures r.lcdc == p.lcdc && r.lyc == p.lyc && r.ly == p.ly + 1
    ensures r.stat & ModeBits == 1 && r.stat & !ModeBits == p.stat & !ModeBits
    ensures r.iflag & VBlankRequest != 0
  {
    InterruptIfEnabled(p.(ly := p.ly + 1, stat := (p.stat | 0x01) & !0x02,
                          iflag := p.iflag | VBlankRequest),
                       VBlankSource)
  }

  /** Entering OAM scan: STAT shows mode 2 and bit 5 may request the STAT
      interrupt. */
  function EnterOamScan(p: Ports): (r: Ports)
    ensures r.lcdc == p.lcdc && r.lyc == p.lyc && r.ly == p.ly
    ensures r.stat & ModeBits == 2 && r.stat & !ModeBits == p.stat & !ModeBits
  {
    InterruptIfEnabled(p.(stat := (p.stat & !0x01) | 0x02), OamSource)
  }

  /** Entering pixel transfer: STAT shows mode 3. */
  function EnterTransfer(p: Ports): (r: Ports)
    ensures r == p.(stat := r.stat)
    ensures r.stat & ModeBits == 3 && r.stat & !ModeBits == p.stat & !ModeBits
  {
    p.(stat := p.stat | 0x03)
  }

  /** Entering horizontal blank: STAT shows mode 0 and bit 3 may request the
      STAT interrupt. */
  function EnterHBlank(p: Ports): (r: Ports)
    ensures r.lcdc == p.lcdc && r.lyc == p.lyc && r.ly == p.ly
    ensures r.stat & ModeBits == 0 && r.stat & !ModeBits == p.stat & !ModeBits
  {
    InterruptIfEnabled(p.(stat := p.stat & !0x03), HBlankSource)
  }

  /** Mode 0, horizontal blank: after 204 cycles the line advances; line 143
      enters vertical blank (mode 1), any other line goes back to OAM scan
      (mode 2). */
  function HBlank(v: Video): (r: Video)
    requires v.lcd.mode == 0
    ensures r.ports.lcdc == v.ports.lcdc && r.ports.lyc == v.ports.lyc
    ensures r == v <==> v.lcd.modeClock < 204
    ensures r != v ==> r.lcd.modeClock == 0 && r.lcd.currentLine == NextLine(v.lcd.currentLine)
                       && r.ports.ly == v.ports.ly + 1
                       && r.lcd.mode == (if r.lcd.currentLine == 143 then 1 else 2)
  {
    if v.lcd.modeClock < 204 then v
    else if NextLine(v.lcd.currentLine) == 143 then
      Video(Lcd(1, 0, 143), EnterVBlank(v.ports))
    else
      Video(Lcd(2, 0, NextLine(v.lcd.currentLine)), EnterOamScan(v.ports.(ly := v.ports.ly + 1)))
  }

  /** Mode 1, vertical blank: every 456 cycles the line advances; past line
      153 both the line and LY restart at 0 in OAM scan (mode 2). */
  function VBlank(v: Video): (r: Video)
    requires v.lcd.mode == 1
    ensures r.ports.lcdc == v.ports.lcdc && r.ports.lyc == v.ports.lyc
    ensures r == v <==> v.lcd.modeClock < 456
    ensures r != v ==> r.lcd.modeClock == 0 && (r.lcd.mode == 2 <==> NextLine(v.lcd.currentLine) > 153)
    ensures r != v && r.lcd.mode == 2 ==> r.lcd.currentLine == 0 && r.ports.ly == 0
    ensures r != v && r.lcd.mode != 2 ==> r.lcd.mode == 1 && r.lcd.currentLine == NextLine(v.lcd.currentLine)
                                          && r.ports.ly == v.ports.ly + 1
  {
    if v.lcd.modeClock < 456 then v
    else if NextLine(v.lcd.currentLine) > 153 then
      Video(Lcd(2, 0, 0), EnterOamScan(v.ports).(ly := 0))
    else
      Video(Lcd(1, 0, NextLine(v.lcd.currentLine)), v.ports.(ly := v.ports.ly + 1))
  }

  /** Mode 2, OAM scan: after 80 cycles, pixel transfer (mode 3). */
  function OamScan(v: Video): (r: Video)
    requires v.lcd.mode == 2
    ensures r.ports.lcdc == v.ports.lcdc && r.ports.lyc == v.ports.lyc && r.ports.ly == v.ports.ly
    ensures r == v <==> v.lcd.modeClock < 80
    ensures r != v ==> r.lcd.mode == 3 && r.lcd.modeClock == 0 && r.lcd.currentLine == v.lcd.currentLine
                       && r.ports.stat & ModeBits == 3
  {
    if v.lcd.modeClock < 80 then v
    else Video(Lcd(3, 0, v.lcd.currentLine), EnterTransfer(v.ports))
  }

  /** Mode 3, pixel transfer: after 172 cycles, horizontal blank (mode 0). */
  function Transfer(v: Video): (r: Video)
    requires v.lcd.mode == 3
    ensures r.ports.lcdc == v.ports.lcdc && r.ports.lyc == v.ports.lyc && r.ports.ly == v.ports.ly
    ensures r == v <==> v.lcd.modeClock < 172
    ensures r != v ==> r.lcd.mode == 0 && r.lcd.modeClock == 0 && r.lcd.currentLine == v.lcd.currentLine
                       && r.ports.stat & ModeBits == 0
  {
    if v.lcd.modeClock < 172 then v
    else Video(Lcd(0, 0, v.lcd.currentLine), EnterHBlank(v.ports))
  }

  /** The mode switch of setLCDStatus; a mode above 3 matches no case. */
  function ModeStep(v: Video): (r: Video)
    ensures r.ports.lcdc == v.ports.lcdc && r.ports.lyc == v.ports.lyc
    ensures r != v ==> r.lcd.modeClock == 0 && r.lcd.mode <= 3
  {
    match v.lcd.mode
    case 0 => HBlank(v)
    case 1 => VBlank(v)
    case 2 => OamScan(v)
    case 3 => Transfer(v)
    case _ => v
  }

  /** The tail of setLCDStatus: STAT bit 2 set exactly when LY = LYC, with a
      STAT interrupt when bit 6 enables it. */
  function Coincidence(p: Ports): (r: Ports)
    ensures r.lcdc == p.lcdc && r.ly == p.ly && r.lyc == p.lyc
    ensures r.stat & CoincidenceBit == (if p.ly == p.lyc then CoincidenceBit else 0)
    ensures r.stat & !CoincidenceBit == p.stat & !CoincidenceBit
  {
    if p.ly == p.lyc then
      InterruptIfEnabled(p.(stat := p.stat | CoincidenceBit), CoincidenceSource)
    else
      p.(stat := p.stat & !CoincidenceBit)
  }

  /** setLCDStatus. */
  function SetLCDStatus(v: Video): (r: Video)
    ensures r.lcd == ModeStep(v).lcd
    ensures r.ports.lcdc == v.ports.lcdc && r.ports.lyc == v.ports.lyc
    ensures r.ports.stat & CoincidenceBit == (if r.ports.ly == v.ports.lyc then CoincidenceBit else 0)
  {
    var s := ModeStep(v);
    Video(s.lcd, Coincidence(s.ports))
  }

  /** UpdateLCD: with the display off, the counter, the line and LY are
      zeroed and STAT reset to 0x80; with it on, the cycles are added to the
      int16 counter and setLCDStatus runs. */
  function UpdateLCD(v: Video, cycles: int): (r: Video)
    ensures r.ports.lcdc == v.ports.lcdc && r.ports.lyc == v.ports.lyc
  {
    if LcdEnabled(v.ports.lcdc) == 0 then
      Video(v.lcd.(modeClock := 0, currentLine := 0), v.ports.(ly := 0, stat := 0x80))
    else
      SetLCDStatus(Advance(v, cycles))
  }

  /** The enabled branch's `modeClock += int16(cycles)`. */
  function Advance(v: Video, cycles: int): (r: Video)
    ensures r.ports == v.ports && r.lcd.mode == v.lcd.mode
    ensures r.lcd.currentLine == v.lcd.currentLine
    ensures -0x8000 <= r.lcd.modeClock < 0x8000
  {
    v.(lcd := v.lcd.(modeClock := Int16(v.lcd.modeClock + Int16(cycles))))
  }

  /** UpdateLCD on the controller and the whole memory: the registers are
      read from memory and the three it writes are stored back. */
  function UpdateLCDMem(s: Lcd, mem: Mem, cycles: int): (r: (Lcd, Mem))
    ensures r.0 == UpdateLCD(Video(s, ReadPorts(mem)), cycles).lcd
    ensures ReadPorts(r.1) == UpdateLCD(Video(s, ReadPorts(mem)), cycles).ports
    ensures forall a: bv16 :: a != StatAddr && a != LyAddr && a != IfAddr ==>
              Load(r.1, a) == Load(mem, a)
  {
    var v := UpdateLCD(Video(s, ReadPorts(mem)), cycles);
    (v.lcd, WritePorts(mem, v.ports))
  }

  // ---------------------------------------------------------------------------
  // What a step promises

  /** The cycles each mode lasts. */
  function Threshold(mode: nat): (r: int)
    requires mode <= 3
  {
    if mode == 0 then 204 else if mode == 1 then 456 else if mode == 2 then 80 else 172
  }

  /** The order of the modes: OAM scan, transfer, horizontal blank, then the
      next line's OAM scan or vertical blank; vertical blank repeats for each
      of its lines and ends in OAM scan. */
  predicate Follows(from: nat, to: nat)
  {
    (from == 2 && to == 3) || (from == 3 && to == 0) || (from == 0 && (to == 1 || to == 2))
    || (from == 1 && (to == 1 || to == 2))
  }

  /** The STAT bit that enables an interrupt on entering a mode; none for
      pixel transfer. */
  function EntrySource(mode: nat): (r: bv8)
  {
    if mode == 0 then HBlankSource else if mode == 1 then VBlankSource
    else if mode == 2 then OamSource else 0
  }

  /** STAT bits 3 to 7, which the controller never writes while it runs. */
  const SelectBits: bv8 := 0xF8

  /** A mode leaves the state alone until its time is up, then resets the
      counter and moves to a mode that follows it. */
  lemma ModeStepTiming(v: Video)
    requires v.lcd.mode <= 3
    ensures v.lcd.modeClock < Threshold(v.lcd.mode) ==> ModeStep(v) == v
    ensures v.lcd.modeClock >= Threshold(v.lcd.mode) ==>
              ModeStep(v).lcd.modeClock == 0 && Follows(v.lcd.mode, ModeStep(v).lcd.mode)
  {
  }

  /** A mode outside 0 to 3 matches no case of the switch: nothing happens. */
  lemma UnknownModeStalls(v: Video)
    requires v.lcd.mode > 3
    ensures ModeStep(v) == v
  {
  }

  /** With LCDC bit 7 clear, UpdateLCD stops the controller: counter, line
      and LY at 0, STAT at 0x80, the mode and IF kept. */
  lemma DisabledResets(v: Video, cycles: int)
    requires v.ports.lcdc & DisplayOn == 0
    ensures UpdateLCD(v, cycles).lcd == Lcd(v.lcd.mode, 0, 0)
    ensures UpdateLCD(v, cycles).ports == v.ports.(ly := 0, stat := 0x80)
  {
  }

  /** An in-range sum needs no wrapping. */
  lemma Int16Small(x: int)
    requires -0x8000 <= x < 0x8000
    ensures Int16(x) == x
  {
  }

  // ---------------------------------------------------------------------------
  // STAT

  /** The four ways the mode steps rewrite STAT all come down to replacing
      bits 1:0 by the new mode. */
  lemma ModeBitsWritten(s: bv8)
    ensures (s | 0x01) & !0x02 == (s & !ModeBits) | 1
    ensures (s & !0x01) | 0x02 == (s & !ModeBits) | 2
    ensures s | 0x03 == (s & !ModeBits) | 3
    ensures s & !0x03 == (s & !ModeBits) | 0
  {
  }

  /** What each mode step leaves in STAT: bits 1:0 replaced by the new mode
      when it changes the mode, STAT untouched otherwise. */
  function ShownMode(s: bv8, mode: nat): (r: bv8)
    requires mode <= 3
  {
    (s & !ModeBits) | mode as bv8
  }

  /** Replacing bits 1:0 by the mode shows the mode there and keeps the
      rest. */
  lemma ShownModeBits(s: bv8, mode: nat)
    requires mode <= 3
    ensures ShownMode(s, mode) & ModeBits == mode as bv8
    ensures ShownMode(s, mode) & !ModeBits == s & !ModeBits
  {
    var m := mode as bv8;
    assert ShownMode(s, mode) == (s & !ModeBits) | m;
    ShownBits(s, m);
  }

  lemma ShownBits(s: bv8, m: bv8)
    requires m <= 3
    ensures ((s & !ModeBits) | m) & ModeBits == m
    ensures ((s & !ModeBits) | m) & !ModeBits == s & !ModeBits
  {
  }

  /** Each transition's register writes show its mode in STAT. */
  lemma EnterVBlankStat(p: Ports)
    ensures EnterVBlank(p).stat == ShownMode(p.stat, 1)
  {
    ModeBitsWritten(p.stat);
  }

  lemma EnterOamScanStat(p: Ports)
    ensures EnterOamScan(p).stat == ShownMode(p.stat, 2)
  {
    ModeBitsWritten(p.stat);
  }

  lemma EnterTransferStat(p: Ports)
    ensures EnterTransfer(p).stat == ShownMode(p.stat, 3)
  {
    ModeBitsWritten(p.stat);
  }

  lemma EnterHBlankStat(p: Ports)
    ensures EnterHBlank(p).stat == ShownMode(p.stat, 0)
  {
    ModeBitsWritten(p.stat);
  }

  lemma HBlankStat(v: Video)
    requires v.lcd.mode == 0
    ensures HBlank(v).ports.stat ==
              if HBlank(v).lcd.mode == 0 then v.ports.stat else ShownMode(v.ports.stat, HBlank(v).lcd.mode)
  {
    if v.lcd.modeClock >= 204 {
      if NextLine(v.lcd.currentLine) == 143 {
        EnterVBlankStat(v.ports);
      } else {
        EnterOamScanStat(v.ports.(ly := v.ports.ly + 1));
      }
    }
  }

  lemma VBlankStat(v: Video)
    requires v.lcd.mode == 1
    ensures VBlank(v).ports.stat ==
              if VBlank(v).lcd.mode == 1 then v.ports.stat else ShownMode(v.ports.stat, VBlank(v).lcd.mode)
  {
    EnterOamScanStat(v.ports);
  }

  lemma OamScanStat(v: Video)
    requires v.lcd.mode == 2
    ensures OamScan(v).ports.stat ==
              if OamScan(v).lcd.mode == 2 then v.ports.stat else ShownMode(v.ports.stat, OamScan(v).lcd.mode)
  {
    EnterTransferStat(v.ports);
  }

  lemma TransferStat(v: Video)
    requires v.lcd.mode == 3
    ensures Transfer(v).ports.stat ==
              if Transfer(v).lcd.mode == 3 then v.ports.stat else ShownMode(v.ports.stat, Transfer(v).lcd.mode)
  {
    EnterHBlankStat(v.ports);
  }

  /** The mode switch, in the form the four steps share. */
  lemma ModeStepStatValue(v: Video)
    ensures ModeStep(v).lcd.mode != v.lcd.mode ==> ModeStep(v).lcd.mode <= 3
    ensures ModeStep(v).ports.stat ==
              if ModeStep(v).lcd.mode == v.lcd.mode then v.ports.stat
              else ShownMode(v.ports.stat, ModeStep(v).lcd.mode)
  {
    if v.lcd.mode == 0 {
      HBlankStat(v);
    } else if v.lcd.mode == 1 {
      VBlankStat(v);
    } else if v.lcd.mode == 2 {
      OamScanStat(v);
    } else if v.lcd.mode == 3 {
      TransferStat(v);
    }
  }

  /** The mode switch writes only STAT bits 1:0, and writes the new mode
      there exactly when it changes it. */
  lemma ModeStepStat(v: Video)
    ensures ModeStep(v).ports.stat & !ModeBits == v.ports.stat & !ModeBits
    ensures ModeStep(v).lcd.mode != v.lcd.mode ==>
              ModeStep(v).ports.stat & ModeBits == ModeStep(v).lcd.mode as bv8
  {
    ModeStepStatValue(v);
    var r := ModeStep(v);
    if r.lcd.mode != v.lcd.mode {
      ShownModeBits(v.ports.stat, r.lcd.mode);
    }
  }

  /** Neither the mode switch nor the coincidence check writes LCDC or LYC. */
  lemma StatusKeepsInputs(v: Video)
    ensures ModeStep(v).ports.lcdc == v.ports.lcdc && ModeStep(v).ports.lyc == v.ports.lyc
    ensures SetLCDStatus(v).ports.lcdc == v.ports.lcdc && SetLCDStatus(v).ports.lyc == v.ports.lyc
  {
  }

  /** Bits 2 to 7 survive a write of bits 1:0, and bits 3 to 7 a write of
      bit 2. */
  lemma SelectBitsSurvive(a: bv8, b: bv8, c: bv8)
    requires b & !ModeBits == a & !ModeBits
    requires c & !CoincidenceBit == b & !CoincidenceBit
    ensures c & SelectBits == a & SelectBits
    ensures c & ModeBits == b & ModeBits
  {
  }

  /** setLCDStatus writes STAT bits 1:0 only to show a new mode, sets bit 2
      exactly when LY = LYC, and never writes bits 3 to 7. */
  lemma StatusStat(v: Video)
    ensures SetLCDStatus(v).ports.stat & SelectBits == v.ports.stat & SelectBits
    ensures SetLCDStatus(v).ports.stat & CoincidenceBit ==
              if SetLCDStatus(v).ports.ly == v.ports.lyc then CoincidenceBit else 0
    ensures SetLCDStatus(v).lcd.mode != v.lcd.mode ==>
              SetLCDStatus(v).ports.stat & ModeBits == SetLCDStatus(v).lcd.mode as bv8
    ensures SetLCDStatus(v).lcd.mode == v.lcd.mode ==>
              SetLCDStatus(v).ports.stat & ModeBits == v.ports.stat & ModeBits
  {
    var s := ModeStep(v);
    ModeStepStat(v);
    StatusKeepsInputs(v);
    SelectBitsSurvive(v.ports.stat, s.ports.stat, SetLCDStatus(v).ports.stat);
  }

  // ---------------------------------------------------------------------------
  // IF

  /** IF with the VBlank and STAT requests added as asked. */
  function Requests(iflag: bv8, vblank: bool, stat: bool): (r: bv8)
  {
    iflag | (if vblank then VBlankRequest else 0) | (if stat then StatRequest else 0)
  }

  /** The STAT interrupt when a step enters a new mode whose source STAT
      enables. */
  predicate EntryInterrupt(stat: bv8, from: nat, to: nat)
  {
    from != to && stat & EntrySource(to) != 0
  }

  /** The requests a mode step makes: VBlank on entering vertical blank from
      horizontal blank, STAT on entering a mode whose source is enabled. */
  predicate StepRequests(v: Video, r: Video)
  {
    r.ports.iflag ==
      Requests(v.ports.iflag, v.lcd.mode == 0 && r.lcd.mode == 1,
               EntryInterrupt(v.ports.stat, v.lcd.mode, r.lcd.mode))
  }

  /** Writing bits 1:0 of STAT leaves its source bits readable. */
  lemma SourcesReadable(s: bv8)
    ensures ((s | 0x01) & !0x02) & VBlankSource == s & VBlankSource
    ensures ((s & !0x01) | 0x02) & OamSource == s & OamSource
    ensures (s & !0x03) & HBlankSource == s & HBlankSource
    ensures (s | CoincidenceBit) & CoincidenceSource == s & CoincidenceSource
  {
  }

  lemma RequestsAdded(x: bv8)
    ensures (x | VBlankRequest) | StatRequest == Requests(x, true, true)
    ensures x | VBlankRequest == Requests(x, true, false)
    ensures x | StatRequest == Requests(x, false, true)
    ensures x == Requests(x, false, false)
  {
  }

  /** The requests of each transition's register writes. */
  lemma EnterVBlankRequests(p: Ports)
    ensures EnterVBlank(p).iflag == Requests(p.iflag, true, p.stat & VBlankSource != 0)
  {
    SourcesReadable(p.stat);
    RequestsAdded(p.iflag);
  }

  lemma EnterOamScanRequests(p: Ports)
    ensures EnterOamScan(p).iflag == Requests(p.iflag, false, p.stat & OamSource != 0)
  {
    SourcesReadable(p.stat);
    RequestsAdded(p.iflag);
  }

  lemma EnterHBlankRequests(p: Ports)
    ensures EnterHBlank(p).iflag == Requests(p.iflag, false, p.stat & HBlankSource != 0)
  {
    SourcesReadable(p.stat);
    RequestsAdded(p.iflag);
  }

  lemma HBlankRequests(v: Video)
    requires v.lcd.mode == 0
    ensures StepRequests(v, HBlank(v))
  {
    if v.lcd.modeClock < 204 {
      RequestsAdded(v.ports.iflag);
    } else if NextLine(v.lcd.currentLine) == 143 {
      EnterVBlankRequests(v.ports);
    } else {
      EnterOamScanRequests(v.ports.(ly := v.ports.ly + 1));
    }
  }

  lemma VBlankRequests(v: Video)
    requires v.lcd.mode == 1
    ensures StepRequests(v, VBlank(v))
  {
    RequestsAdded(v.ports.iflag);
    EnterOamScanRequests(v.ports);
  }

  lemma OamScanRequests(v: Video)
    requires v.lcd.mode == 2
    ensures StepRequests(v, OamScan(v))
  {
    RequestsAdded(v.ports.iflag);
  }

  lemma TransferRequests(v: Video)
    requires v.lcd.mode == 3
    ensures StepRequests(v, Transfer(v))
  {
    RequestsAdded(v.ports.iflag);
    EnterHBlankRequests(v.ports);
  }

  lemma ModeStepRequests(v: Video)
    ensures StepRequests(v, ModeStep(v))
  {
    if v.lcd.mode == 0 {
      HBlankRequests(v);
    } else if v.lcd.mode == 1 {
      VBlankRequests(v);
    } else if v.lcd.mode == 2 {
      OamScanRequests(v);
    } else if v.lcd.mode == 3 {
      TransferRequests(v);
    } else {
      RequestsAdded(v.ports.iflag);
    }
  }

  /** The coincidence check requests the STAT interrupt when LY = LYC and
      STAT bit 6 enables it. */
  lemma CoincidenceRequests(p: Ports)
    ensures Coincidence(p).iflag ==
              Requests(p.iflag, false, p.ly == p.lyc && p.stat & CoincidenceSource != 0)
  {
    SourcesReadable(p.stat);
    RequestsAdded(p.iflag);
  }

  lemma RequestsCombine(x: bv8, a: bool, b: bool, c: bool)
    ensures Requests(Requests(x, a, b), false, c) == Requests(x, a, b || c)
  {
  }

  /** setLCDStatus adds to IF, and only these: the VBlank request when it
      enters vertical blank from horizontal blank, and the STAT request when
      it enters a mode whose source STAT enables or finds LY = LYC with bit 6
      set. */
  lemma StatusRequests(v: Video)
    ensures SetLCDStatus(v).ports.iflag ==
              Requests(v.ports.iflag,
                       v.lcd.mode == 0 && SetLCDStatus(v).lcd.mode == 1,
                       EntryInterrupt(v.ports.stat, v.lcd.mode, SetLCDStatus(v).lcd.mode)
                       || (SetLCDStatus(v).ports.ly == v.ports.lyc
                           && v.ports.stat & CoincidenceSource != 0))
  {
    var s := ModeStep(v);
    ModeStepRequests(v);
    ModeStepStat(v);
    StatusKeepsInputs(v);
    CoincidenceSourceKept(v.ports.stat, s.ports.stat);
    CoincidenceRequests(s.ports);
    RequestsCombine(v.ports.iflag, v.lcd.mode == 0 && s.lcd.mode == 1,
                    EntryInterrupt(v.ports.stat, v.lcd.mode, s.lcd.mode),
                    s.ports.ly == s.ports.lyc && s.ports.stat & CoincidenceSource != 0);
  }

  lemma CoincidenceSourceKept(a: bv8, b: bv8)
    requires b & !ModeBits == a & !ModeBits
    ensures b & CoincidenceSource == a & CoincidenceSource
  {
  }

  /** Requests are only ever added: no IF bit is cleared, and bits 2 to 7
      are never touched. */
  lemma RequestsOnlyAdd(x: bv8, a: bool, b: bool)
    ensures Requests(x, a, b) & x == x
    ensures Requests(x, a, b) & !(VBlankRequest | StatRequest) == x & !(VBlankRequest | StatRequest)
    ensures (Requests(x, a, b) & VBlankRequest != 0) <==> (x & VBlankRequest != 0 || a)
    ensures (Requests(x, a, b) & StatRequest != 0) <==> (x & StatRequest != 0 || b)
  {
  }

  // ---------------------------------------------------------------------------
  // Invariants

  /** The states the controller reaches: a mode of 0 to 3, a line of at most
      153, and lines past 142 only in vertical blank. */
  predicate Sane(s: Lcd)
  {
    s.mode <= 3 && s.currentLine <= 153 && (s.mode != 1 ==> s.currentLine <= 142)
  }

  /** Sane, with LY showing the current line. */
  predicate Tracking(v: Video)
  {
    Sane(v.lcd) && v.ports.ly as int == v.lcd.currentLine
  }

  /** Sane, with vertical blank only on lines 143 to 153. */
  predicate Scanning(s: Lcd)
  {
    Sane(s) && (s.mode == 1 ==> s.currentLine >= 143)
  }

  lemma ByteStep(b: bv8)
    requires b < 0xFF
    ensures (b + 1) as int == b as int + 1
  {
  }

  lemma HBlankTracks(v: Video)
    requires v.lcd.mode == 0 && Tracking(v)
    ensures Tracking(HBlank(v)) && (Scanning(v.lcd) ==> Scanning(HBlank(v).lcd))
  {
    ByteStep(v.ports.ly);
  }

  lemma VBlankTracks(v: Video)
    requires v.lcd.mode == 1 && Tracking(v)
    ensures Tracking(VBlank(v)) && (Scanning(v.lcd) ==> Scanning(VBlank(v).lcd))
  {
    ByteStep(v.ports.ly);
  }

  /** The mode switch keeps both invariants. */
  lemma ModeStepTracks(v: Video)
    requires Tracking(v)
    ensures Tracking(ModeStep(v))
    ensures Scanning(v.lcd) ==> Scanning(ModeStep(v).lcd)
  {
    if v.lcd.mode == 0 {
      HBlankTracks(v);
    } else if v.lcd.mode == 1 {
      VBlankTracks(v);
    }
  }

  /** The mode switch keeps the controller in its reachable states, and
      vertical blank on lines 143 to 153, whatever LY holds. */
  lemma ModeStepSane(v: Video)
    requires Sane(v.lcd)
    ensures Sane(ModeStep(v).lcd)
    ensures Scanning(v.lcd) ==> Scanning(ModeStep(v).lcd)
  {
  }

  /** UpdateLCD keeps the controller in its reachable states, whether the
      display is on or off and whatever a store left in LY. */
  lemma UpdateSane(v: Video, cycles: int)
    requires Sane(v.lcd)
    ensures Sane(UpdateLCD(v, cycles).lcd)
  {
    if LcdEnabled(v.ports.lcdc) != 0 {
      ModeStepSane(Advance(v, cycles));
    }
  }

  /** UpdateLCD keeps LY on the current line, whether the display is on or
      off. */
  lemma UpdateTracks(v: Video, cycles: int)
    requires Tracking(v)
    ensures Tracking(UpdateLCD(v, cycles))
  {
    if LcdEnabled(v.ports.lcdc) != 0 {
      ModeStepTracks(Advance(v, cycles));
    }
  }

  /** With the display on, UpdateLCD also keeps vertical blank on lines 143
      to 153, and shows the mode in STAT bits 1:0 if it was shown before. */
  lemma EnabledUpdateScans(v: Video, cycles: int)
    requires Scanning(v.lcd) && v.ports.lcdc & DisplayOn != 0
    ensures Scanning(UpdateLCD(v, cycles).lcd)
    ensures v.ports.stat & ModeBits == v.lcd.mode as bv8 ==>
              UpdateLCD(v, cycles).ports.stat & ModeBits == UpdateLCD(v, cycles).lcd.mode as bv8
  {
    var w := Advance(v, cycles);
    ModeStepSane(w);
    StatusStat(w);
  }

  /** Switching the display off stops it on line 0 in whatever mode it was;
      in vertical blank that leaves a state vertical blank never reaches. */
  lemma DisabledInVBlankStopsOnLineZero(v: Video, cycles: int)
    requires v.ports.lcdc & DisplayOn == 0 && v.lcd.mode == 1
    ensures !Scanning(UpdateLCD(v, cycles).lcd)
  {
  }

  // ---------------------------------------------------------------------------
  // Runs

  /** UpdateLCD called once for each entry of cycles, in order. */
  function Run(v: Video, cycles: seq<int>): (r: Video)
    ensures r.ports.lcdc == v.ports.lcdc && r.ports.lyc == v.ports.lyc
    decreases |cycles|
  {
    if cycles == [] then v else Run(UpdateLCD(v, cycles[0]), cycles[1..])
  }

  /** A run of a + b is a run of a followed by a run of b. */
  lemma {:induction false} RunAppend(v: Video, a: seq<int>, b: seq<int>)
    ensures Run(v, a + b) == Run(Run(v, a), b)
    decreases |a|
  {
    if a == [] {
      assert a + b == b;
    } else {
      assert (a + b)[1..] == a[1..] + b;
      RunAppend(UpdateLCD(v, a[0]), a[1..], b);
    }
  }

  /** Every state a run reaches from a reachable state is reachable. */
  lemma {:induction false} RunSane(v: Video, cycles: seq<int>)
    requires Sane(v.lcd)
    ensures Sane(Run(v, cycles).lcd)
    decreases |cycles|
  {
    if cycles != [] {
      UpdateSane(v, cycles[0]);
      RunSane(UpdateLCD(v, cycles[0]), cycles[1..]);
    }
  }

  /** Every state a run reaches from a tracking state tracks too. */
  lemma {:induction false} RunTracks(v: Video, cycles: seq<int>)
    requires Tracking(v)
    ensures Tracking(Run(v, cycles))
    decreases |cycles|
  {
    if cycles != [] {
      UpdateTracks(v, cycles[0]);
      RunTracks(UpdateLCD(v, cycles[0]), cycles[1..]);
    }
  }

  /** With the display on throughout, every state a run reaches from a
      scanning state scans too: vertical blank stays on lines 143 to 153 and
      the other modes on lines 0 to 142. */
  lemma {:induction false} EnabledRunScans(v: Video, cycles: seq<int>)
    requires Scanning(v.lcd) && v.ports.lcdc & DisplayOn != 0
    ensures Scanning(Run(v, cycles).lcd)
    decreases |cycles|
  {
    if cycles != [] {
      EnabledUpdateScans(v, cycles[0]);
      EnabledRunScans(UpdateLCD(v, cycles[0]), cycles[1..]);
    }
  }

  /** From power-on (mode 2, line 0, LY 0) with the display on throughout,
      the line never passes 153, LY follows it, and vertical blank is the
      only mode on lines 143 to 153. */
  lemma PowerOnRunScans(ports: Ports, cycles: seq<int>)
    requires ports.ly == 0 && ports.lcdc & DisplayOn != 0
    ensures Tracking(Run(Video(PowerOn, ports), cycles))
    ensures Scanning(Run(Video(PowerOn, ports), cycles).lcd)
  {
    RunTracks(Video(PowerOn, ports), cycles);
    EnabledRunScans(Video(PowerOn, ports), cycles);
  }

  /** The cycles of one scan line, and of a vertical blank line. */
  const ScanLine: seq<int> := [80, 172, 204]
  const BlankLine: seq<int> := [456]

  /** c repeated n times. */
  function Repeat(c: seq<int>, n: nat): (r: seq<int>)
    ensures |r| == n * |c|
  {
    if n == 0 then [] else c + Repeat(c, n - 1)
  }

  /** The cycles of a frame: 143 scan lines, then 11 vertical blank lines. */
  const FrameCycles: seq<int> := Repeat(ScanLine, 143) + Repeat(BlankLine, 11)

  function Sum(c: seq<int>): (r: int)
  {
    if c == [] then 0 else c[0] + Sum(c[1..])
  }

  lemma {:induction false} SumAppend(a: seq<int>, b: seq<int>)
    ensures Sum(a + b) == Sum(a) + Sum(b)
    decreases |a|
  {
    if a == [] {
      assert a + b == b;
    } else {
      assert (a + b)[1..] == a[1..] + b;
      SumAppend(a[1..], b);
    }
  }

  lemma {:induction false} SumRepeat(c: seq<int>, n: nat)
    ensures Sum(Repeat(c, n)) == n * Sum(c)
  {
    if n > 0 {
      SumAppend(c, Repeat(c, n - 1));
      SumRepeat(c, n - 1);
    }
  }

  /** A frame lasts 154 lines of 456 cycles. */
  lemma FrameLength()
    ensures Sum(FrameCycles) == 154 * 456 == 70224
  {
    SumAppend(Repeat(ScanLine, 143), Repeat(BlankLine, 11));
    SumRepeat(ScanLine, 143);
    SumRepeat(BlankLine, 11);
  }

  /** One display-on UpdateLCD from the start of a mode, given exactly the
      mode's cycles. */
  lemma EnabledStep(v: Video, cycles: int)
    requires v.ports.lcdc & DisplayOn != 0 && v.lcd.modeClock == 0 && 0 <= cycles < 0x8000
    ensures UpdateLCD(v, cycles).lcd == ModeStep(v.(lcd := v.lcd.(modeClock := cycles))).lcd
  {
    Int16Small(cycles);
    assert Advance(v, cycles) == v.(lcd := v.lcd.(modeClock := cycles));
  }

  /** The three modes of a scan line take 80, 172 and 204 cycles; the line
      after 142 is spent in vertical blank. */
  lemma ScanLineRun(v: Video)
    requires v.ports.lcdc & DisplayOn != 0 && v.lcd.mode == 2 && v.lcd.modeClock == 0
    requires v.lcd.currentLine <= 142
    ensures Run(v, ScanLine).lcd ==
              if v.lcd.currentLine == 142 then Lcd(1, 0, 143) else Lcd(2, 0, v.lcd.currentLine + 1)
  {
    var v1 := UpdateLCD(v, 80);
    EnabledStep(v, 80);
    var v2 := UpdateLCD(v1, 172);
    EnabledStep(v1, 172);
    var v3 := UpdateLCD(v2, 204);
    EnabledStep(v2, 204);
    assert Run(v, ScanLine) == Run(v3, []);
  }

  /** A vertical blank line takes 456 cycles; after line 153 the frame
      starts again at line 0 in OAM scan. */
  lemma BlankLineRun(v: Video)
    requires v.ports.lcdc & DisplayOn != 0 && v.lcd.mode == 1 && v.lcd.modeClock == 0
    requires v.lcd.currentLine <= 153
    ensures Run(v, BlankLine).lcd ==
              if v.lcd.currentLine == 153 then Lcd(2, 0, 0) else Lcd(1, 0, v.lcd.currentLine + 1)
  {
    EnabledStep(v, 456);
    assert Run(v, BlankLine) == Run(UpdateLCD(v, 456), []);
  }

  /** n scan lines from line l reach line l + n, or vertical blank once line
      142 is done. */
  lemma {:induction false} ScanLinesRun(v: Video, n: nat)
    requires v.ports.lcdc & DisplayOn != 0 && v.lcd.mode == 2 && v.lcd.modeClock == 0
    requires v.lcd.currentLine <= 142 && v.lcd.currentLine + n <= 143
    ensures Run(v, Repeat(ScanLine, n)).lcd ==
              if v.lcd.currentLine + n == 143 then Lcd(1, 0, 143) else Lcd(2, 0, v.lcd.currentLine + n)
    decreases n
  {
    if n > 0 {
      RunAppend(v, ScanLine, Repeat(ScanLine, n - 1));
      ScanLineRun(v);
      var w := Run(v, ScanLine);
      if v.lcd.currentLine < 142 {
        ScanLinesRun(w, n - 1);
      }
    }
  }

  /** n vertical blank lines from line l reach line l + n, or line 0 of the
      next frame once line 153 is done. */
  lemma {:induction false} BlankLinesRun(v: Video, n: nat)
    requires v.ports.lcdc & DisplayOn != 0 && v.lcd.mode == 1 && v.lcd.modeClock == 0
    requires v.lcd.currentLine <= 153 && v.lcd.currentLine + n <= 154
    ensures Run(v, Repeat(BlankLine, n)).lcd ==
              if v.lcd.currentLine + n == 154 then Lcd(2, 0, 0) else Lcd(1, 0, v.lcd.currentLine + n)
    decreases n
  {
    if n > 0 {
      RunAppend(v, BlankLine, Repeat(BlankLine, n - 1));
      BlankLineRun(v);
      var w := Run(v, BlankLine);
      if v.lcd.currentLine < 153 {
        BlankLinesRun(w, n - 1);
      }
    }
  }

  /** With the display on, a frame's cycles take the controller from the
      start of line 0 through 143 scan lines and 11 vertical blank lines
      back to the start of line 0. */
  lemma FrameRun(v: Video)
    requires v.ports.lcdc & DisplayOn != 0 && v.lcd == Lcd(2, 0, 0)
    ensures Run(v, Repeat(ScanLine, 143)).lcd == Lcd(1, 0, 143)
    ensures Run(v, FrameCycles).lcd == v.lcd
  {
    RunAppend(v, Repeat(ScanLine, 143), Repeat(BlankLine, 11));
    ScanLinesRun(v, 143);
    BlankLinesRun(Run(v, Repeat(ScanLine, 143)), 11);
  }
}
