TestResult.DisplayName,TestResult.Outcome,TestResult.Duration,TestResult.ResourceCount,RandomSeed
Scenes.Scene.DestroyObject (correctness),Passed,00:00:00.1207607,108998,7
Scenes.Scene.DestroyObject (well-formedness),Passed,00:00:00.0978570,38219,7
