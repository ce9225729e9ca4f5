/** How bench_matrix_offloading divides the image width between the CPU and
    the OpenCL device. All values are uint32_t, so every subtraction and
    multiplication wraps modulo 2^32 and every division truncates. */
module Offload {
  import opened Layout

  const U32: nat := 0x1_0000_0000

  type U32Value = x: nat | x < U32

  /** uint32 multiplication. */
  function Mul32(a: U32Value, b: U32Value): U32Value
  {
    (a * b) % U32
  }

  /** uint32 subtraction. */
  function Sub32(a: U32Value, b: U32Value): U32Value
  {
    (a - b) % U32
  }

  /** get_bottom(distance, percentage) = distance * percentage / 100
      (bench_matrix_offloading.cpp:122-125): the product wraps modulo 2^32,
      then the division truncates. Without wrap-around it is the floor of
      percentage percent of distance; with it, never more than that. */
  function GetBottom(distance: U32Value, percentage: U32Value): (r: U32Value)
    ensures distance * percentage < U32 ==> r == distance * percentage / 100
    ensures 100 * r <= distance * percentage
  {
    Mul32(distance, percentage) / 100
  }

  /** get_top(distance, percentage) = distance * (100 - percentage) / 100
      (bench_matrix_offloading.cpp:127-130): the subtraction and the product
      wrap modulo 2^32, then the division truncates, which is get_bottom of
      the wrapped 100 - percentage. For percentage <= 100
      and no wrap-around it is the floor of the remaining percent of
      distance. */
  function GetTop(distance: U32Value, percentage: U32Value): (r: U32Value)
    ensures percentage <= 100 && distance * (100 - percentage) < U32 ==> r == distance * (100 - percentage) / 100
    ensures 100 * r <= distance * Sub32(100, percentage)
  {
    var onTop := Sub32(100, percentage);
    assert percentage <= 100 ==> onTop == 100 - percentage;
    GetBottom(distance, onTop)
  }

  /** The split caf_main computes from --width and --with-opencl: the two
      widths, whether an OpenCL actor is spawned, whether the CPU part runs
      (bench_matrix_offloading.cpp:155, 174, 183, 192, 199). */
  datatype Plan = Plan(cpuWidth: U32Value, openclWidth: U32Value, spawnOpenCL: bool, runCpu: bool)

  function Split(width: U32Value, offloaded: U32Value): (r: Plan)
    ensures r.spawnOpenCL <==> r.openclWidth > 0
    ensures r.runCpu <==> r.cpuWidth > 0
    ensures 100 * r.cpuWidth <= width * Sub32(100, offloaded) && 100 * r.openclWidth <= width * Sub32(100, Sub32(100, offloaded))
  {
    var onCpu := Sub32(100, offloaded);
    var cpu := GetBottom(width, onCpu);
    var opencl := GetTop(width, onCpu);
    Plan(cpu, opencl, opencl > 0, cpu > 0)
  }

  lemma Mul32Exact(a: U32Value, b: U32Value)
    requires b <= 100 && a * 100 < U32
    ensures a * b <= a * 100 && Mul32(a, b) == a * b
  {
    MulLeftMono(a, b, 100);
    var x := a * b;
    assert 0 <= x < U32;
  }

  /** With offloaded <= 100 and width * 100 < 2^32 nothing wraps:
      the CPU gets floor(width * (100 - offloaded) / 100) columns and the
      device floor(width * offloaded / 100). */
  lemma SplitExact(width: U32Value, offloaded: U32Value)
    requires offloaded <= 100 && width * 100 < U32
    ensures Split(width, offloaded).cpuWidth == width * (100 - offloaded) / 100
    ensures Split(width, offloaded).openclWidth == width * offloaded / 100
  {
    var onCpu: U32Value := 100 - offloaded;
    assert Sub32(100, offloaded) == onCpu;
    assert Sub32(100, onCpu) == offloaded;
    Mul32Exact(width, onCpu);
    Mul32Exact(width, offloaded);
  }

  /** Without wrap-around the two shares never overlap and lose at most one
      column to truncation: width - 1 <= cpu + opencl <= width. */
  lemma {:induction false} SplitCovers(width: U32Value, offloaded: U32Value)
    requires offloaded <= 100 && width * 100 < U32
    ensures var p := Split(width, offloaded);
            p.cpuWidth + p.openclWidth <= width && width <= p.cpuWidth + p.openclWidth + 1
  {
    SplitExact(width, offloaded);
    var a, b := width * (100 - offloaded), width * offloaded;
    assert a + b == 100 * width;
    var qa, ra, qb, rb := a / 100, a % 100, b / 100, b % 100;
    assert a == 100 * qa + ra && b == 100 * qb + rb;
    assert 100 * (qa + qb) + ra + rb == 100 * width;
    assert 0 <= ra + rb < 200;
  }

  /** --with-opencl 0: everything on the CPU and no OpenCL actor. */
  lemma NothingOffloaded(width: U32Value)
    requires width * 100 < U32
    ensures Split(width, 0) == Plan(width, 0, false, width > 0)
  {
    SplitExact(width, 0);
  }

  /** --with-opencl 100: everything on the device and the CPU part skipped. */
  lemma AllOffloaded(width: U32Value)
    requires width * 100 < U32
    ensures Split(width, 100) == Plan(0, width, width > 0, false)
  {
    SplitExact(width, 100);
  }

  /** Above 100 percent, 100 - offloaded wraps: with width 100 and
      --with-opencl 101 the CPU share becomes 42949671 columns. */
  lemma OffloadedAboveHundredWraps()
    ensures Sub32(100, 101) == U32 - 1
    ensures Split(100, 101).cpuWidth == 42949671
  {
  }

  /** Once width * 100 reaches 2^32 the product wraps: a width of 50000000
      with nothing offloaded gives the CPU 7050327 columns, not 50000000. */
  lemma WideImageWraps()
    ensures Split(50000000, 0).cpuWidth == 7050327
  {
  }
}
