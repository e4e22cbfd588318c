/**
  Identifiers of the functions exported by the core interface.

  Every exported operation has a fixed 32-bit id so that callers on the other
  side of the binary interface can look an entry point up by number. The ids
  are grouped per subsystem: system control in 1..9, versions in 101..115 and
  the library api in 201..217; the whole range 0..1000 is reserved.
 */
module FnIds {

  /** A signed 32-bit integer, the representation type of the enum. */
  newtype i32 = x: int | -0x8000_0000 <= x < 0x8000_0000

  import opened Wrappers

  datatype FnId =
    | SysLock
    | SysTryLock
    | SysUnlock
    | SysShutdown
    | SysPanic
    | SysHasFunction
    | SysGetFunction
    | SysGetSyncHandler
    | SysSetSyncHandler
    | VersionConstructShort
    | VersionConstructLong
    | VersionConstructFull
    | VersionConstructFromString
    | VersionRepresentationIsValid
    | VersionGetShortRepresentation
    | VersionGetShortRepresentationLength
    | VersionGetLongRepresentation
    | VersionGetLongRepresentationLength
    | VersionGetFullRepresentation
    | VersionGetFullRepresentationLength
    | VersionCompare
    | VersionCompareWeak
    | VersionCompareStrong
    | VersionIsCompatible
    | LibraryRegisterLoader
    | LibraryUnregisterLoader
    | LibraryGetNumLoaders
    | LibraryGetLibraryTypes
    | LibraryGetLoaderHandle
    | LibraryTypeExists
    | LibraryLibraryExists
    | LibraryUnsafeCreateLibraryHandle
    | LibraryUnsafeRemoveLibraryHandle
    | LibraryUnsafeLinkLibrary
    | LibraryUnsafeGetLoaderLibraryHandle
    | LibraryUnsafeGetLoaderHandle
    | LibraryUnsafeGetLoaderInterface
    | LibraryLoad
    | LibraryUnload
    | LibraryGetDataSymbol
    | LibraryGetFunctionSymbol

  /** The subsystems that own a block of ids. */
  datatype Subsystem = System | Version | Library

  /** The lowest reserved id. */
  const ReservedLo: int := 0
  /** The highest reserved id. */
  const ReservedHi: int := 1000

  /** The subsystem an operation belongs to, read off its name prefix. */
  function SubsystemOf(f: FnId): (s: Subsystem)
  {
    match f
    case SysLock | SysTryLock | SysUnlock | SysShutdown | SysPanic
      | SysHasFunction | SysGetFunction | SysGetSyncHandler | SysSetSyncHandler => System
    case VersionConstructShort | VersionConstructLong | VersionConstructFull
      | VersionConstructFromString | VersionRepresentationIsValid
      | VersionGetShortRepresentation | VersionGetShortRepresentationLength
      | VersionGetLongRepresentation | VersionGetLongRepresentationLength
      | VersionGetFullRepresentation | VersionGetFullRepresentationLength
      | VersionCompare | VersionCompareWeak | VersionCompareStrong
      | VersionIsCompatible => Version
    case _ => Library
  }

  /** Smallest id used by a subsystem. */
  function RangeLo(s: Subsystem): (lo: int)
  {
    match s
    case System => 1
    case Version => 101
    case Library => 201
  }

  /** Largest id used by a subsystem. */
  function RangeHi(s: Subsystem): (hi: int)
  {
    match s
    case System => 9
    case Version => 115
    case Library => 217
  }

  predicate InRange(i: int, s: Subsystem)
  {
    RangeLo(s) <= i <= RangeHi(s)
  }

  /** The explicit discriminant of each variant. */
  function ToInt(f: FnId): (r: i32)
    ensures ReservedLo <= r as int <= ReservedHi
  {
    match f
    case SysLock => 1
    case SysTryLock => 2
    case SysUnlock => 3
    case SysShutdown => 4
    case SysPanic => 5
    case SysHasFunction => 6
    case SysGetFunction => 7
    case SysGetSyncHandler => 8
    case SysSetSyncHandler => 9
    case VersionConstructShort => 101
    case VersionConstructLong => 102
    case VersionConstructFull => 103
    case VersionConstructFromString => 104
    case VersionRepresentationIsValid => 105
    case VersionGetShortRepresentation => 106
    case VersionGetShortRepresentationLength => 107
    case VersionGetLongRepresentation => 108
    case VersionGetLongRepresentationLength => 109
    case VersionGetFullRepresentation => 110
    case VersionGetFullRepresentationLength => 111
    case VersionCompare => 112
    case VersionCompareWeak => 113
    case VersionCompareStrong => 114
    case VersionIsCompatible => 115
    case LibraryRegisterLoader => 201
    case LibraryUnregisterLoader => 202
    case LibraryGetNumLoaders => 203
    case LibraryGetLibraryTypes => 204
    case LibraryGetLoaderHandle => 205
    case LibraryTypeExists => 206
    case LibraryLibraryExists => 207
    case LibraryUnsafeCreateLibraryHandle => 208
    case LibraryUnsafeRemoveLibraryHandle => 209
    case LibraryUnsafeLinkLibrary => 210
    case LibraryUnsafeGetLoaderLibraryHandle => 211
    case LibraryUnsafeGetLoaderHandle => 212
    case LibraryUnsafeGetLoaderInterface => 213
    case LibraryLoad => 214
    case LibraryUnload => 215
    case LibraryGetDataSymbol => 216
    case LibraryGetFunctionSymbol => 217
  }

  /**
    The variant with discriminant `i`, if there is one. The enum itself has no
    such conversion; this decoder is a proof device for the lemmas below.
   */
  function FromInt(i: i32): (r: Option<FnId>)
  {
    if InRange(i as int, System) then Some(SystemId(i))
    else if InRange(i as int, Version) then Some(VersionId(i))
    else if InRange(i as int, Library) then Some(LibraryId(i))
    else None
  }

  /** Decodes an id of the system-control block. */
  function SystemId(i: i32): (f: FnId)
    requires InRange(i as int, System)
  {
    match i
    case 1 => SysLock
    case 2 => SysTryLock
    case 3 => SysUnlock
    case 4 => SysShutdown
    case 5 => SysPanic
    case 6 => SysHasFunction
    case 7 => SysGetFunction
    case 8 => SysGetSyncHandler
    case _ => SysSetSyncHandler
  }

  /** Decodes an id of the version block. */
  function VersionId(i: i32): (f: FnId)
    requires InRange(i as int, Version)
  {
    match i
    case 101 => VersionConstructShort
    case 102 => VersionConstructLong
    case 103 => VersionConstructFull
    case 104 => VersionConstructFromString
    case 105 => VersionRepresentationIsValid
    case 106 => VersionGetShortRepresentation
    case 107 => VersionGetShortRepresentationLength
    case 108 => VersionGetLongRepresentation
    case 109 => VersionGetLongRepresentationLength
    case 110 => VersionGetFullRepresentation
    case 111 => VersionGetFullRepresentationLength
    case 112 => VersionCompare
    case 113 => VersionCompareWeak
    case 114 => VersionCompareStrong
    case _ => VersionIsCompatible
  }

  /** Decodes an id of the library block. */
  function LibraryId(i: i32): (f: FnId)
    requires InRange(i as int, Library)
  {
    match i
    case 201 => LibraryRegisterLoader
    case 202 => LibraryUnregisterLoader
    case 203 => LibraryGetNumLoaders
    case 204 => LibraryGetLibraryTypes
    case 205 => LibraryGetLoaderHandle
    case 206 => LibraryTypeExists
    case 207 => LibraryLibraryExists
    case 208 => LibraryUnsafeCreateLibraryHandle
    case 209 => LibraryUnsafeRemoveLibraryHandle
    case 210 => LibraryUnsafeLinkLibrary
    case 211 => LibraryUnsafeGetLoaderLibraryHandle
    case 212 => LibraryUnsafeGetLoaderHandle
    case 213 => LibraryUnsafeGetLoaderInterface
    case 214 => LibraryLoad
    case 215 => LibraryUnload
    case 216 => LibraryGetDataSymbol
    case _ => LibraryGetFunctionSymbol
  }

  /** Every id lies in the block of its operation's subsystem. */
  lemma ToIntInSubsystemRange(f: FnId)
    ensures InRange(ToInt(f) as int, SubsystemOf(f))
  {
  }

  /** Decoding an encoded id gives the variant back. */
  lemma {:induction false} FromIntToInt(f: FnId)
    ensures FromInt(ToInt(f)) == Some(f)
  {
    match f
    case SysLock =>
    case SysTryLock =>
    case SysUnlock =>
    case SysShutdown =>
    case SysPanic =>
    case SysHasFunction =>
    case SysGetFunction =>
    case SysGetSyncHandler =>
    case SysSetSyncHandler =>
    case VersionConstructShort =>
    case VersionConstructLong =>
    case VersionConstructFull =>
    case VersionConstructFromString =>
    case VersionRepresentationIsValid =>
    case VersionGetShortRepresentation =>
    case VersionGetShortRepresentationLength =>
    case VersionGetLongRepresentation =>
    case VersionGetLongRepresentationLength =>
    case VersionGetFullRepresentation =>
    case VersionGetFullRepresentationLength =>
    case VersionCompare =>
    case VersionCompareWeak =>
    case VersionCompareStrong =>
    case VersionIsCompatible =>
    case LibraryRegisterLoader =>
    case LibraryUnregisterLoader =>
    case LibraryGetNumLoaders =>
    case LibraryGetLibraryTypes =>
    case LibraryGetLoaderHandle =>
    case LibraryTypeExists =>
    case LibraryLibraryExists =>
    case LibraryUnsafeCreateLibraryHandle =>
    case LibraryUnsafeRemoveLibraryHandle =>
    case LibraryUnsafeLinkLibrary =>
    case LibraryUnsafeGetLoaderLibraryHandle =>
    case LibraryUnsafeGetLoaderHandle =>
    case LibraryUnsafeGetLoaderInterface =>
    case LibraryLoad =>
    case LibraryUnload =>
    case LibraryGetDataSymbol =>
    case LibraryGetFunctionSymbol =>
  }

  /** Decoding only ever returns the variant whose discriminant was given. */
  lemma FromIntSound(i: i32)
    requires FromInt(i).Some?
    ensures ToInt(FromInt(i).value) == i
  {
  }

  /**
    A number is the discriminant of some variant exactly when it lies in one
    of the three subsystem blocks: each block is used without gaps, and no id
    lies outside them.
   */
  lemma DiscriminantsFillBlocks(i: i32)
    ensures (exists f :: ToInt(f) == i) <==> InRange(i as int, System) || InRange(i as int, Version) || InRange(i as int, Library)
  {
    if InRange(i as int, System) || InRange(i as int, Version) || InRange(i as int, Library) {
      FromIntSound(i);
    } else {
      forall f ensures ToInt(f) != i {
        ToIntInSubsystemRange(f);
      }
    }
  }

  /** No two variants share a discriminant. */
  lemma ToIntInjective(f: FnId, g: FnId)
    ensures ToInt(f) == ToInt(g) ==> f == g
  {
    FromIntToInt(f);
    FromIntToInt(g);
  }

  /** The three subsystem blocks do not overlap. */
  lemma RangesDisjoint(i: int, s: Subsystem, t: Subsystem)
    requires InRange(i, s) && InRange(i, t)
    ensures s == t
  {
  }

  /** An id that lies in a subsystem's block belongs to an operation of that subsystem. */
  lemma IdDeterminesSubsystem(f: FnId, g: FnId)
    requires InRange(ToInt(f) as int, SubsystemOf(g))
    ensures SubsystemOf(f) == SubsystemOf(g)
  {
    RangesDisjoint(ToInt(f) as int, SubsystemOf(f), SubsystemOf(g));
  }
}
