/** The termination status both machines return (the `result` enum of
    reg/vm.h and stack/vm.h). */
module VmResult {

  datatype Result = Success | ErrDivZero | ErrUnknownOpcode
}
