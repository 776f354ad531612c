/**
 * Numeric constants of the Linux sound UAPI header (sound/asound.h), the
 * errno values of Linux and the epoll event bits, as the diagnostic
 * programs use them.
 *
 * A 32-bit flag word of the C structures is modelled as the set of the
 * positions of its 1 bits (`Word`): testing `w & (1 << j)` is `j in w`,
 * `w |= 1 << j` is `w + {j}`, `w & v` is `w * v`, and a word is zero
 * exactly when its set is empty. Unsigned 32-bit quantities that take part
 * in arithmetic are `U32`.
 */
module Asound {

  type U32 = x: int | 0 <= x < 0x1_0000_0000

  const UINT_MAX: U32 := 0xFFFF_FFFF

  /** A 32-bit flag word as the set of positions of its 1 bits. */
  type Word = w: set<nat> | forall b :: b in w ==> b < 32

  /** The word with no bit set (0). */
  const NO_BITS: Word := {}

  /** The word with every bit set (0xffffffff). */
  const ALL_ONES: Word := set b: nat | b < 32

  // Hardware parameter identifiers (snd_pcm_hw_param_t).
  const PARAM_ACCESS := 0
  const PARAM_FORMAT := 1
  const PARAM_SUBFORMAT := 2
  const FIRST_MASK := 0
  const LAST_MASK := 2

  const PARAM_SAMPLE_BITS := 8
  const PARAM_FRAME_BITS := 9
  const PARAM_CHANNELS := 10
  const PARAM_RATE := 11
  const PARAM_PERIOD_TIME := 12
  const PARAM_PERIOD_SIZE := 13
  const PARAM_PERIOD_BYTES := 14
  const PARAM_PERIODS := 15
  const PARAM_BUFFER_TIME := 16
  const PARAM_BUFFER_SIZE := 17
  const PARAM_BUFFER_BYTES := 18
  const PARAM_TICK_TIME := 19
  const FIRST_INTERVAL := 8
  const LAST_INTERVAL := 19

  /** Number of 32-bit words of a snd_mask: SNDRV_MASK_MAX (256) / 32. */
  const MASK_WORDS := 8

  /** Entries of the parameter label table, indexed by parameter identifier. */
  const PARAM_LABEL_ENTRIES := 20

  // Access modes (snd_pcm_access_t).
  const ACCESS_MMAP_INTERLEAVED := 0
  const ACCESS_MMAP_NONINTERLEAVED := 1
  const ACCESS_MMAP_COMPLEX := 2
  const ACCESS_RW_INTERLEAVED := 3
  const ACCESS_RW_NONINTERLEAVED := 4

  // Sample formats (snd_pcm_format_t): the linear integer ones and the first after them.
  const FORMAT_S8 := 0
  const FORMAT_U8 := 1
  const FORMAT_S16_LE := 2
  const FORMAT_S16_BE := 3
  const FORMAT_U16_LE := 4
  const FORMAT_U16_BE := 5
  const FORMAT_S24_LE := 6
  const FORMAT_S24_BE := 7
  const FORMAT_U24_LE := 8
  const FORMAT_U24_BE := 9
  const FORMAT_S32_LE := 10
  const FORMAT_S32_BE := 11
  const FORMAT_U32_LE := 12
  const FORMAT_U32_BE := 13
  const FORMAT_FLOAT_LE := 14

  // Stream directions.
  const STREAM_PLAYBACK := 0
  const STREAM_CAPTURE := 1

  /** SNDRV_PCM_INFO_* values, as words, in the order of the capability label table. */
  const INFO_FLAGS: seq<Word> := [
    {0},  // MMAP                        0x00000001
    {1},  // MMAP_VALID                  0x00000002
    {2},  // DOUBLE                      0x00000004
    {4},  // BATCH                       0x00000010
    {8},  // INTERLEAVED                 0x00000100
    {9},  // NONINTERLEAVED              0x00000200
    {10}, // COMPLEX                     0x00000400
    {16}, // BLOCK_TRANSFER              0x00010000
    {17}, // OVERRANGE                   0x00020000
    {18}, // RESUME                      0x00040000
    {19}, // PAUSE                       0x00080000
    {20}, // HALF_DUPLEX                 0x00100000
    {21}, // JOINT_DUPLEX                0x00200000
    {22}, // SYNC_START                  0x00400000
    {23}, // NO_PERIOD_WAKEUP            0x00800000
    {24}, // HAS_WALL_CLOCK              0x01000000
    {24}, // HAS_LINK_ATIME              0x01000000, the same bit as HAS_WALL_CLOCK
    {25}, // HAS_LINK_ABSOLUTE_ATIME     0x02000000
    {26}, // HAS_LINK_ESTIMATED_ATIME    0x04000000
    {27}, // HAS_LINK_SYNCHRONIZED_ATIME 0x08000000
    {30}, // DRAIN_TRIGGER               0x40000000
    {31}  // FIFO_IN_FRAMES              0x80000000
  ]

  /** Entries of the hardware-parameter flag label table (bits 0..2 of the flags word). */
  const HW_FLAG_ENTRIES := 3

  // Control element types (snd_ctl_elem_type_t).
  const ELEM_TYPE_NONE := 0
  const ELEM_TYPE_BOOLEAN := 1
  const ELEM_TYPE_INTEGER := 2
  const ELEM_TYPE_ENUMERATED := 3
  const ELEM_TYPE_BYTES := 4
  const ELEM_TYPE_IEC958 := 5
  const ELEM_TYPE_INTEGER64 := 6
  /** Size of the per-type dumper table of the element dumper. */
  const ELEM_TYPE_ENTRIES := 7

  /** SNDRV_CTL_ELEM_ACCESS_* values, as words, in the order of the access label table. */
  const ELEM_ACCESS_FLAGS: seq<Word> := [
    {0},  // READ         0x00000001
    {1},  // WRITE        0x00000002
    {2},  // VOLATILE     0x00000004
    {3},  // TIMESTAMP    0x00000008
    {4},  // TLV_READ     0x00000010
    {5},  // TLV_WRITE    0x00000020
    {6},  // TLV_COMMAND  0x00000040
    {8},  // INACTIVE     0x00000100
    {9},  // LOCK         0x00000200
    {10}, // OWNER        0x00000400
    {28}, // TLV_CALLBACK 0x10000000
    {29}  // USER         0x20000000
  ]

  /** The largest number of element ids the lister asks for in one ELEM_LIST call. */
  const ELEM_LIST_BATCH := 1000

  // Linux errno values.
  const EINTR := 4
  const EIO := 5
  const ENXIO := 6
  const ENOMEM := 12
  const EPIPE := 32

  /** The value of errno after a failed call: never zero. */
  type Errno = e: int | 0 < e witness 1

  // epoll event bits, as positions in the events word.
  const EPOLLIN := 0   // 0x001
  const EPOLLOUT := 2  // 0x004
  const EPOLLERR := 3  // 0x008

  /** Reply of an ioctl or system call that returns no data: success, or failure with errno. */
  datatype Reply = Done | Failed(errno: Errno)

  datatype Option<T> = None | Some(value: T)
}
