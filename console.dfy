/** What a Symfony Console command hands back: an exit status and styled output blocks. */
module Console {

  /** The three exit statuses of a console command (Command::SUCCESS, ::FAILURE, ::INVALID). */
  datatype ExitCode = ExitSuccess | ExitFailure | ExitInvalid

  /** One block written through SymfonyStyle: warning(), error() or success(). */
  datatype Message = Warning(text: string) | Error(text: string) | Success(text: string)
}
