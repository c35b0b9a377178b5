/** The states of a process (kernel/proc.h). */
module ProcState {

  datatype PState = Unused | Used | Sleeping | Runnable | Running | Zombie
}
