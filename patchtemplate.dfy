/** The block of combo handlers that the patcher appends after its banner. */
module PatchTemplate {
  /** Stands for the script's appended handler block (the `combos:*` IPC handlers and
      the module export); no property of the model depends on its text. */
  const TemplateBody: string
}
