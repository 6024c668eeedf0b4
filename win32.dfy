// Win32 vocabulary shared by both applications: HRESULT outcomes, the 32-bit
// unsigned integer of the Windows headers and the decoding of a window
// message's lParam into its two 16-bit words.

module Win32 {

  datatype Option<T> = None | Some(value: T)

  /** The two outcomes the code distinguishes: S_OK and any HRESULT for which
      FAILED(hr) holds (ThrowIfFailed turns the latter into an exception). */
  datatype HResult = Ok | Fail

  /** UINT / uint32_t. */
  newtype uint32 = x: int | 0 <= x < 0x1_0000_0000

  /** static_cast<UINT> of a non-negative size_t: the low 32 bits survive. */
  function ToUInt32(n: nat): (r: uint32)
    ensures n < 0x1_0000_0000 ==> r as int == n
  {
    (n % 0x1_0000_0000) as uint32
  }

  // Window messages and key-state flags handled by the applications.
  const WM_DESTROY: bv32 := 0x0002
  const WM_SIZE: bv32 := 0x0005
  const WM_MOUSEMOVE: bv32 := 0x0200
  const MK_LBUTTON: bv64 := 0x0001

  /** `(lParam & 0x0000ffff) >> 0`: bits 0-15 (width of WM_SIZE, x of WM_MOUSEMOVE). */
  function LowWord(lParam: bv64): (w: bv32)
    ensures w < 0x1_0000
  {
    ((lParam & 0x0000_FFFF) >> 0) as bv32
  }

  /** `(lParam & 0xffff0000) >> 16`: bits 16-31 (height of WM_SIZE, y of WM_MOUSEMOVE). */
  function HighWord(lParam: bv64): (h: bv32)
    ensures h < 0x1_0000
  {
    ((lParam & 0xFFFF_0000) >> 16) as bv32
  }

  /** How the system packs two 16-bit words into an lParam (MAKELPARAM). */
  function MakeLParam(low: bv32, high: bv32): bv64
    requires low < 0x1_0000 && high < 0x1_0000
  {
    ((high as bv64) << 16) | (low as bv64)
  }

  /** Decoding recovers both packed words. */
  lemma WordsRoundTrip(low: bv32, high: bv32)
    requires low < 0x1_0000 && high < 0x1_0000
    ensures LowWord(MakeLParam(low, high)) == low
    ensures HighWord(MakeLParam(low, high)) == high
  {
  }

  /** Decoding reads bits 0-31 only, and those bits are exactly the two words. */
  lemma WordsDetermineLowHalf(lParam: bv64)
    ensures LowWord(lParam) == LowWord(lParam & 0xFFFF_FFFF)
    ensures HighWord(lParam) == HighWord(lParam & 0xFFFF_FFFF)
    ensures MakeLParam(LowWord(lParam), HighWord(lParam)) == lParam & 0xFFFF_FFFF
  {
  }
}
