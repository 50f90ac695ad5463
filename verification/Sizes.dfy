/** The constants of denoise.c (denoise.c:44-58). */
module Sizes {

  const FRAME_SIZE := 480
  const WINDOW_SIZE := 960
  const FREQ_SIZE := 481

  const PITCH_MIN_PERIOD := 60
  const PITCH_MAX_PERIOD := 768
  const PITCH_FRAME_SIZE := 960
  const PITCH_BUF_SIZE := 1728

  const NB_BANDS := 22
}
