/** The angle sequences `b1` to `b5` that the repository's tests expect from
    the dose-symmetric scan of `arange(-90, 90, 4.5)` with symmetry 1 to 5
    (`tests/test_floret.py`), entry by entry. */
module TestVectors {

  /** `y` is the test vector `b1`. */
  predicate IsB1(y: seq<real>) {
    && |y| == 40
    && y[0] == 0.0 && y[1] == -4.5 && y[2] == 4.5 && y[3] == -9.0
    && y[4] == 9.0 && y[5] == -13.5 && y[6] == 13.5 && y[7] == -18.0
    && y[8] == 18.0 && y[9] == -22.5 && y[10] == 22.5 && y[11] == -27.0
    && y[12] == 27.0 && y[13] == -31.5 && y[14] == 31.5 && y[15] == -36.0
    && y[16] == 36.0 && y[17] == -40.5 && y[18] == 40.5 && y[19] == -45.0
    && y[20] == 45.0 && y[21] == -49.5 && y[22] == 49.5 && y[23] == -54.0
    && y[24] == 54.0 && y[25] == -58.5 && y[26] == 58.5 && y[27] == -63.0
    && y[28] == 63.0 && y[29] == -67.5 && y[30] == 67.5 && y[31] == -72.0
    && y[32] == 72.0 && y[33] == -76.5 && y[34] == 76.5 && y[35] == -81.0
    && y[36] == 81.0 && y[37] == -85.5 && y[38] == 85.5 && y[39] == -90.0
  }

  /** `y` is the test vector `b2`. */
  predicate IsB2(y: seq<real>) {
    && |y| == 40
    && y[0] == 0.0 && y[1] == -90.0 && y[2] == -4.5 && y[3] == 85.5
    && y[4] == 4.5 && y[5] == -85.5 && y[6] == -9.0 && y[7] == 81.0
    && y[8] == 9.0 && y[9] == -81.0 && y[10] == -13.5 && y[11] == 76.5
    && y[12] == 13.5 && y[13] == -76.5 && y[14] == -18.0 && y[15] == 72.0
    && y[16] == 18.0 && y[17] == -72.0 && y[18] == -22.5 && y[19] == 67.5
    && y[20] == 22.5 && y[21] == -67.5 && y[22] == -27.0 && y[23] == 63.0
    && y[24] == 27.0 && y[25] == -63.0 && y[26] == -31.5 && y[27] == 58.5
    && y[28] == 31.5 && y[29] == -58.5 && y[30] == -36.0 && y[31] == 54.0
    && y[32] == 36.0 && y[33] == -54.0 && y[34] == -40.5 && y[35] == 49.5
    && y[36] == 40.5 && y[37] == -49.5 && y[38] == -45.0 && y[39] == 45.0
  }

  /** `y` is the test vector `b3`. */
  predicate IsB3(y: seq<real>) {
    && |y| == 40
    && y[0] == 0.0 && y[1] == -90.0 && y[2] == 45.0 && y[3] == -45.0
    && y[4] == -4.5 && y[5] == 85.5 && y[6] == -49.5 && y[7] == 40.5
    && y[8] == 4.5 && y[9] == -85.5 && y[10] == 49.5 && y[11] == -40.5
    && y[12] == -9.0 && y[13] == 81.0 && y[14] == -54.0 && y[15] == 36.0
    && y[16] == 9.0 && y[17] == -81.0 && y[18] == 54.0 && y[19] == -36.0
    && y[20] == -13.5 && y[21] == 76.5 && y[22] == -58.5 && y[23] == 31.5
    && y[24] == 13.5 && y[25] == -76.5 && y[26] == 58.5 && y[27] == -31.5
    && y[28] == -18.0 && y[29] == 72.0 && y[30] == -63.0 && y[31] == 27.0
    && y[32] == 18.0 && y[33] == -72.0 && y[34] == 63.0 && y[35] == -27.0
    && y[36] == -22.5 && y[37] == 67.5 && y[38] == -67.5 && y[39] == 22.5
  }

  /** `y` is the test vector `b4`. */
  predicate IsB4(y: seq<real>) {
    && |y| == 40
    && y[0] == 0.0 && y[1] == -90.0 && y[2] == 45.0 && y[3] == -45.0
    && y[4] == 22.5 && y[5] == -67.5 && y[6] == 67.5 && y[7] == -22.5
    && y[8] == -4.5 && y[9] == 85.5 && y[10] == -49.5 && y[11] == 40.5
    && y[12] == -27.0 && y[13] == 63.0 && y[14] == -72.0 && y[15] == 18.0
    && y[16] == 4.5 && y[17] == -85.5 && y[18] == 49.5 && y[19] == -40.5
    && y[20] == 27.0 && y[21] == -63.0 && y[22] == 72.0 && y[23] == -18.0
    && y[24] == -9.0 && y[25] == 81.0 && y[26] == -54.0 && y[27] == 36.0
    && y[28] == -31.5 && y[29] == 58.5 && y[30] == -76.5 && y[31] == 13.5
    && y[32] == 9.0 && y[33] == -81.0 && y[34] == 54.0 && y[35] == -36.0
    && y[36] == 31.5 && y[37] == -58.5 && y[38] == 76.5 && y[39] == -13.5
  }

  /** `y` is the test vector `b5`. */
  predicate IsB5(y: seq<real>) {
    && |y| == 40
    && y[0] == 0.0 && y[1] == -90.0 && y[2] == 45.0 && y[3] == -45.0
    && y[4] == 22.5 && y[5] == -67.5 && y[6] == 67.5 && y[7] == -22.5
    && y[8] == -13.5 && y[9] == 76.5 && y[10] == -58.5 && y[11] == 31.5
    && y[12] == -36.0 && y[13] == 54.0 && y[14] == -81.0 && y[15] == 9.0
    && y[16] == -4.5 && y[17] == 85.5 && y[18] == -49.5 && y[19] == 40.5
    && y[20] == -27.0 && y[21] == 63.0 && y[22] == -72.0 && y[23] == 18.0
    && y[24] == 13.5 && y[25] == -76.5 && y[26] == 58.5 && y[27] == -31.5
    && y[28] == 36.0 && y[29] == -54.0 && y[30] == 81.0 && y[31] == -9.0
    && y[32] == 4.5 && y[33] == -85.5 && y[34] == 49.5 && y[35] == -40.5
    && y[36] == -18.0 && y[37] == 72.0 && y[38] == -63.0 && y[39] == 27.0
  }

}
